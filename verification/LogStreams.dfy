// Live log streams of the job engine (internal/job/queue.go: Emit, Stream,
// closeStreams). Every event is one critical section under e.mu, one close or
// one send, so subscribers, emitting goroutines and closing workers interleave
// freely.
module LogStreams {
  import opened Base
  import opened JobTable

  type Chan = nat
  type EmitId = nat

  // A channel returned by Stream: its job, and how often it was closed.
  datatype ChanState = ChanState(id: JobId, closes: nat)

  // A goroutine inside Emit, with what is left of the subscriber list it copied.
  datatype Emitting = Emitting(id: JobId, pending: seq<Chan>)

  datatype State = State(
    subs: map<JobId, seq<Chan>>,
    finished: set<JobId>,
    chans: map<Chan, ChanState>,
    active: set<JobId>,                // jobs whose handler is running
    draining: map<JobId, seq<Chan>>,   // detached by closeStreams, not yet closed
    emits: map<EmitId, Emitting>,
    faulted: bool)                     // a closed channel was closed again or sent to: Go panics

  const EMPTY := State(map[], {}, map[], {}, map[], map[], false)

  datatype Event =
    | Enter(id: JobId)                 // the handler starts
    | Leave(id: JobId)                 // the handler is over
    | Hangup(id: JobId)                // closeStreams up to e.mu.Unlock
    | CloseOne(id: JobId)              // one close(ch) of its loop
    | Drained(id: JobId)
    | Stream(id: JobId, ch: Chan)
    | EmitStart(id: JobId, e: EmitId)  // the copy of subs under e.mu
    | EmitSend(e: EmitId)              // one non-blocking send of its loop
    | EmitEnd(e: EmitId)

  function SubsOf(s: State, id: JobId): seq<Chan> { if id in s.subs then s.subs[id] else [] }

  predicate Quiet(s: State, id: JobId) { forall e :: e in s.emits ==> s.emits[e].id != id }

  predicate Enabled(s: State, e: Event)
  {
    match e
    case Enter(id) => id !in s.finished
    // A handler's emits are over when it returns: the compose runner waits for
    // its pipe goroutines.
    case Leave(id) => id in s.active && Quiet(s, id)
    case Hangup(id) => id !in s.active && id !in s.finished
    case CloseOne(id) => id in s.draining && s.draining[id] != [] && s.draining[id][0] in s.chans
    case Drained(id) => id in s.draining && s.draining[id] == []
    case Stream(_, ch) => ch !in s.chans
    case EmitStart(id, e) => id in s.active && e !in s.emits
    case EmitSend(e) => e in s.emits && s.emits[e].pending != [] && s.emits[e].pending[0] in s.chans
    case EmitEnd(e) => e in s.emits && s.emits[e].pending == []
  }

  function Apply(s: State, e: Event): State
    requires Enabled(s, e)
  {
    match e
    case Enter(id) => s.(active := s.active + {id})
    case Leave(id) => s.(active := s.active - {id})
    case Hangup(id) =>
      s.(draining := s.draining[id := SubsOf(s, id)], subs := s.subs - {id}, finished := s.finished + {id})
    case CloseOne(id) =>
      var ch := s.draining[id][0];
      s.(draining := s.draining[id := s.draining[id][1..]],
         chans := s.chans[ch := s.chans[ch].(closes := s.chans[ch].closes + 1)],
         faulted := s.faulted || s.chans[ch].closes > 0)
    case Drained(id) => s.(draining := s.draining - {id})
    case Stream(id, ch) =>
      if id in s.finished then s.(chans := s.chans[ch := ChanState(id, 1)])
      else s.(chans := s.chans[ch := ChanState(id, 0)], subs := s.subs[id := SubsOf(s, id) + [ch]])
    case EmitStart(id, e) => s.(emits := s.emits[e := Emitting(id, SubsOf(s, id))])
    case EmitSend(e) =>
      s.(emits := s.emits[e := s.emits[e].(pending := s.emits[e].pending[1..])],
         faulted := s.faulted || s.chans[s.emits[e].pending[0]].closes > 0)
    case EmitEnd(e) => s.(emits := s.emits - {e})
  }

  // ----- the invariant -------------------------------------------------------

  // Every channel listed under a job belongs to it, is open and is listed once.
  ghost predicate Listed(lists: map<JobId, seq<Chan>>, chans: map<Chan, ChanState>)
  {
    && (forall id :: id in lists ==> Distinct(lists[id]))
    && (forall id, c :: id in lists && c in lists[id] ==> c in chans && chans[c] == ChanState(id, 0))
  }

  ghost predicate Lists(lists: map<JobId, seq<Chan>>, id: JobId, c: Chan) { id in lists && c in lists[id] }

  // An open channel is registered, or its closing worker still has to reach it.
  ghost predicate Tracked(s: State)
  {
    forall c :: c in s.chans ==>
      if s.chans[c].closes == 0 then Lists(s.subs, s.chans[c].id, c) || Lists(s.draining, s.chans[c].id, c)
      else s.chans[c].closes == 1 && s.chans[c].id in s.finished
  }

  // An emit in flight belongs to a running handler and only knows open channels.
  ghost predicate EmitsSafe(s: State)
  {
    forall e :: e in s.emits ==>
      s.emits[e].id in s.active && forall c :: c in s.emits[e].pending ==> Lists(s.subs, s.emits[e].id, c)
  }

  ghost predicate Inv(s: State)
  {
    && !s.faulted
    && Listed(s.subs, s.chans) && Listed(s.draining, s.chans)
    && (forall id :: id in s.subs ==> id !in s.finished)
    && (forall id :: id in s.draining ==> id in s.finished)
    && (forall id :: id in s.active ==> id !in s.finished)
    && Tracked(s) && EmitsSafe(s)
  }

  lemma EmptyInv()
    ensures Inv(EMPTY)
  {
  }

  // Registering a fresh channel under a job.
  lemma ListAppend(lists: map<JobId, seq<Chan>>, chans: map<Chan, ChanState>, id: JobId, ch: Chan)
    requires Listed(lists, chans) && ch !in chans
    ensures var list := if id in lists then lists[id] else [];
            Listed(lists[id := list + [ch]], chans[ch := ChanState(id, 0)])
  {
    var list := if id in lists then lists[id] else [];
    assert forall c :: c in list ==> c in chans;
    assert Distinct(list + [ch]);
  }

  // Closing the head of a job's list leaves the other lists' channels open.
  lemma ListTail(lists: map<JobId, seq<Chan>>, chans: map<Chan, ChanState>, id: JobId, closed: ChanState)
    requires Listed(lists, chans) && id in lists && lists[id] != []
    ensures lists[id][0] in chans && chans[lists[id][0]] == ChanState(id, 0)
    ensures Listed(lists[id := lists[id][1..]], chans[lists[id][0] := closed])
  {
    var list := lists[id];
    assert list[0] in list;
    forall c | c in list[1..] ensures c in list && c != list[0] {
      var k :| 0 <= k < |list| - 1 && list[1..][k] == c;
      assert list[k + 1] == c;
    }
  }

  lemma CloseOneKeepsInv(s: State, id: JobId)
    requires Inv(s) && Enabled(s, CloseOne(id))
    ensures Inv(Apply(s, CloseOne(id)))
  {
    var s' := Apply(s, CloseOne(id));
    var ch := s.draining[id][0];
    ListTail(s.draining, s.chans, id, s'.chans[ch]);
    forall c | c in s.draining[id] && c != ch ensures c in s'.draining[id] {
      var k :| 0 <= k < |s.draining[id]| && s.draining[id][k] == c;
      assert s'.draining[id][k - 1] == c;
    }
  }

  // What a list holds is not forgotten when a channel is appended to one.
  lemma ListGrows(lists: map<JobId, seq<Chan>>, id: JobId, ch: Chan, x: JobId, c: Chan)
    requires Lists(lists, x, c)
    ensures Lists(lists[id := (if id in lists then lists[id] else []) + [ch]], x, c)
  {
  }

  lemma StreamKeepsInv(s: State, id: JobId, ch: Chan)
    requires Inv(s) && Enabled(s, Stream(id, ch)) && id !in s.finished
    ensures Inv(Apply(s, Stream(id, ch)))
  {
    var s' := Apply(s, Stream(id, ch));
    ListAppend(s.subs, s.chans, id, ch);
    assert Listed(s'.draining, s'.chans);
    assert Tracked(s') by {
      forall c | c in s.chans && Lists(s.subs, s.chans[c].id, c) ensures Lists(s'.subs, s.chans[c].id, c) {
        ListGrows(s.subs, id, ch, s.chans[c].id, c);
      }
      assert Lists(s'.subs, id, ch);
    }
    assert EmitsSafe(s') by {
      forall e, c | e in s.emits && c in s.emits[e].pending ensures Lists(s'.subs, s.emits[e].id, c) {
        ListGrows(s.subs, id, ch, s.emits[e].id, c);
      }
    }
  }

  lemma HangupKeepsInv(s: State, id: JobId)
    requires Inv(s) && Enabled(s, Hangup(id))
    ensures Inv(Apply(s, Hangup(id)))
  {
    var s' := Apply(s, Hangup(id));
    assert Listed(s'.draining, s'.chans);
    assert Tracked(s') by {
      forall c | c in s.chans && s.chans[c].closes == 0
        ensures Lists(s'.subs, s.chans[c].id, c) || Lists(s'.draining, s.chans[c].id, c)
      {
      }
    }
  }

  // The steps that leave the channels and their lists alone.
  lemma EmitKeepsInv(s: State, e: Event)
    requires Inv(s) && Enabled(s, e) && (e.Enter? || e.Leave? || e.EmitStart? || e.EmitSend? || e.EmitEnd?)
    ensures Inv(Apply(s, e))
  {
    hide Listed;
    if e.EmitSend? {
      var known := s.emits[e.e];
      assert Lists(s.subs, known.id, known.pending[0]);
      assert Listed(s.subs, s.chans);
      OpenWhileListed(s.subs, s.chans, known.id, known.pending[0]);
    }
  }

  lemma OpenWhileListed(lists: map<JobId, seq<Chan>>, chans: map<Chan, ChanState>, id: JobId, ch: Chan)
    requires Listed(lists, chans) && Lists(lists, id, ch)
    ensures ch in chans && chans[ch].closes == 0
  {
  }

  lemma StepKeepsInv(s: State, e: Event)
    requires Inv(s) && Enabled(s, e)
    ensures Inv(Apply(s, e))
  {
    match e
    case CloseOne(id) => CloseOneKeepsInv(s, id);
    case Hangup(id) => HangupKeepsInv(s, id);
    case Stream(id, ch) => if id !in s.finished { StreamKeepsInv(s, id, ch); }
    case Drained(_) =>
    case _ => EmitKeepsInv(s, e);
  }
}
