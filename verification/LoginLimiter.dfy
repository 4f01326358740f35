// The login lockout (internal/httpapi/ratelimit.go:15-103): failures per
// address in a fixed window, in a map of bounded size.
module LoginLimiter {
  import opened Base

  const FAIL_LIMIT := 5
  const MAX_TRACKED := 4096
  const SECOND := 1_000_000_000
  const WINDOW := 900 * SECOND      // fifteen minutes, in nanoseconds

  datatype Entry = Entry(count: nat, first: int)

  predicate Live(e: Entry, now: int) { now - e.first < WINDOW }

  // ----- the reference: what the history says, without a bound ------------------------------

  // Evicted: the limiter forgot a live entry to keep its size.
  datatype Event = Failed(ip: string, at: int) | Succeeded(ip: string) | Evicted(ip: string)

  // The address's window: it starts with a failure outside any window and
  // counts the failures inside it; a success or an eviction ends it.
  function Window(h: seq<Event>, ip: string): Option<Entry>
  {
    if h == [] then None
    else
      var w, e := Window(h[..|h| - 1], ip), h[|h| - 1];
      if e.ip != ip then w
      else if !e.Failed? then None
      else if w.Some? && Live(w.value, e.at) then Some(Entry(w.value.count + 1, w.value.first))
      else Some(Entry(1, e.at))
  }

  function Failures(h: seq<Event>, ip: string, from: nat): nat
  {
    if |h| <= from then 0
    else Failures(h[..|h| - 1], ip, from) + if h[|h| - 1].Failed? && h[|h| - 1].ip == ip then 1 else 0
  }

  // A window is what it is said to be: its start is a failure of the address, no
  // reset came after it, and its count is the failures since, all of them within
  // fifteen minutes of the start.
  lemma {:induction false} WindowTells(h: seq<Event>, ip: string) returns (i: nat)
    requires Window(h, ip).Some?
    ensures i < |h| && h[i] == Failed(ip, Window(h, ip).value.first)
    ensures Window(h, ip).value.count == Failures(h, ip, i)
    ensures forall j :: i < j < |h| && h[j].ip == ip ==> h[j].Failed? && Live(Window(h, ip).value, h[j].at)
  {
    var init, e := h[..|h| - 1], h[|h| - 1];
    if e.ip == ip && !(Window(init, ip).Some? && Live(Window(init, ip).value, e.at)) {
      i := |h| - 1;
      assert Failures(init, ip, i) == 0;
    } else {
      i := WindowTells(init, ip);
      assert forall j :: 0 <= j < |init| ==> init[j] == h[j];
    }
  }

  lemma WindowAfter(h: seq<Event>, e: Event, ip: string)
    ensures Window(h + [e], ip) ==
              if e.ip != ip then Window(h, ip)
              else if !e.Failed? then None
              else if Window(h, ip).Some? && Live(Window(h, ip).value, e.at)
              then Some(Entry(Window(h, ip).value.count + 1, Window(h, ip).value.first)) else Some(Entry(1, e.at))
  {
    assert (h + [e])[..|h|] == h;
  }

  // ----- the limiter ---------------------------------------------------------------------------

  // The map holds every live window of the history, and nothing else that
  // differs from it.
  ghost predicate Tracks(m: map<string, Entry>, h: seq<Event>, now: int)
  {
    && (forall ip :: ip in m ==> Window(h, ip) == Some(m[ip]))
    && (forall ip :: ip !in m && Window(h, ip).Some? ==> !Live(Window(h, ip).value, now))
  }

  // No event has the empty address, which the eviction walk takes for none.
  ghost predicate Addressed(h: seq<Event>) { forall i :: 0 <= i < |h| ==> h[i].ip != "" }

  lemma AddressedMore(h: seq<Event>, e: Event)
    ensures Addressed(h + [e]) <==> Addressed(h) && e.ip != ""
  {
    assert forall i :: 0 <= i < |h| ==> (h + [e])[i] == h[i];
    assert (h + [e])[|h|] == e;
  }

  class Limiter {
    var m: map<string, Entry>
    ghost var h: seq<Event>
    ghost var clock: int

    ghost predicate Valid()
      reads this
    {
      && Tracks(m, h, clock)
      && (forall ip :: ip in m ==> m[ip].first <= clock)
      && (Addressed(h) ==> "" !in m && |m| <= MAX_TRACKED)
    }

    constructor (ghost now: int)
      ensures Valid() && m == map[] && h == [] && clock == now
    {
      m, h, clock := map[], [], now;
    }

    // The clock does not run backwards.
    method Blocked(ip: string, now: int) returns (retryAfter: int, blocked: bool)
      requires Valid() && clock <= now
      modifies this
      ensures Valid() && h == old(h) && clock == now
      ensures m == if ip in old(m) && !Live(old(m)[ip], now) then old(m) - {ip} else old(m)
      ensures blocked <==> Window(h, ip).Some? && Window(h, ip).value.count >= FAIL_LIMIT && Live(Window(h, ip).value, now)
      ensures if blocked then 1 <= retryAfter <= 900 else retryAfter == 0
      ensures blocked && WINDOW - (now - Window(h, ip).value.first) >= SECOND ==>
                retryAfter * SECOND <= WINDOW - (now - Window(h, ip).value.first) < (retryAfter + 1) * SECOND
      ensures blocked && WINDOW - (now - Window(h, ip).value.first) < SECOND ==> retryAfter == 1
    {
      clock := now;
      if ip !in m { return 0, false; }
      var e := m[ip];
      var remaining := WINDOW - (now - e.first);
      if remaining <= 0 {
        SizeOfSubset((m - {ip}).Keys, m.Keys);
        m := m - {ip};
        return 0, false;
      }
      if e.count < FAIL_LIMIT { return 0, false; }
      retryAfter := remaining / SECOND;
      if retryAfter < 1 { retryAfter := 1; }
      blocked := true;
    }

    // evicted: the live entry that was given up for the new one.
    method Fail(ip: string, now: int) returns (ghost evicted: Option<string>)
      requires Valid() && clock <= now
      modifies this
      ensures Valid() && clock == now
      ensures h == old(h) + (if evicted.Some? then [Evicted(evicted.value)] else []) + [Failed(ip, now)]
      ensures "" !in old(m) && |old(m)| <= MAX_TRACKED ==> |m| <= MAX_TRACKED
      ensures evicted.Some? ==> evicted.value in old(m) && evicted.value != ip && GivenUp(old(m), evicted.value, now)
      ensures m.Keys <= old(m).Keys + {ip}
    {
      hide Tracks, Window, Live, GivenUp, Addressed;
      evicted := None;
      TimePasses(m, h, clock, now);
      clock := now;
      AddressedMore(h, Failed(ip, now));
      if ip in m && Live(m[ip], now) {
        Recorded(m, h, ip, now, Entry(m[ip].count + 1, m[ip].first));
        SizeOfUpdate(m, ip, Entry(m[ip].count + 1, m[ip].first));
        m := m[ip := Entry(m[ip].count + 1, m[ip].first)];
        h := h + [Failed(ip, now)];
        return;
      }
      if |m| >= MAX_TRACKED {
        ghost var was := h;
        evicted := EvictLocked(now);
        if evicted.Some? { AddressedMore(was, Evicted(evicted.value)); } else { assert h == was; }
        AddressedMore(h, Failed(ip, now));
      }
      Recorded(m, h, ip, now, Entry(1, now));
      SizeOfUpdate(m, ip, Entry(1, now));
      m := m[ip := Entry(1, now)];
      h := h + [Failed(ip, now)];
    }

    method Success(ip: string)
      requires Valid()
      modifies this
      ensures Valid() && clock == old(clock) && h == old(h) + [Succeeded(ip)] && m == old(m) - {ip}
    {
      AddressedMore(h, Succeeded(ip));
      SizeOfSubset((m - {ip}).Keys, m.Keys);
      forall x ensures Window(h + [Succeeded(ip)], x) == if x == ip then None else Window(h, x) {
        WindowAfter(h, Succeeded(ip), x);
      }
      m := m - {ip};
      h := h + [Succeeded(ip)];
    }

    // Walks the map in any order, dropping what has expired and remembering the
    // oldest of the rest; "" stands for no such entry.
    method DropExpired(now: int) returns (oldestKey: string)
      requires Tracks(m, h, now)
      modifies this`m
      ensures Tracks(m, h, now)
      ensures m.Keys <= old(m).Keys && forall k :: k in m ==> Live(m[k], now) && m[k] == old(m)[k]
      ensures forall k :: k in old(m) && k !in m ==> !Live(old(m)[k], now)
      ensures oldestKey != "" ==> oldestKey in m
      ensures "" !in old(m) ==> if oldestKey == "" then m == map[] else forall k :: k in m ==> m[oldestKey].first <= m[k].first
    {
      hide Tracks, Live;
      var todo := m.Keys;
      var oldest := 0;
      oldestKey := "";
      while todo != {}
        invariant todo <= m.Keys <= old(m).Keys && Tracks(m, h, now)
        invariant forall k :: k in m ==> m[k] == old(m)[k]
        invariant forall k :: k in old(m) && k !in m ==> !Live(old(m)[k], now)
        invariant forall k :: k in m && k !in todo ==> Live(m[k], now)
        invariant oldestKey != "" ==> oldestKey in m && oldestKey !in todo && oldest == m[oldestKey].first
        invariant oldestKey != "" && "" !in old(m) ==> forall k :: k in m && k !in todo ==> oldest <= m[k].first
        invariant oldestKey == "" && "" !in old(m) ==> m.Keys == todo
        decreases |todo|
      {
        var k :| k in todo;
        todo := todo - {k};
        if !Live(m[k], now) {
          ExpiredDropped(m, h, k, now);
          m := m - {k};
        } else if oldestKey == "" || m[k].first < oldest {
          oldestKey, oldest := k, m[k].first;
        }
      }
    }

    method EvictLocked(now: int) returns (ghost evicted: Option<string>)
      requires Valid() && clock == now && |m| >= MAX_TRACKED
      modifies this`m, this`h
      ensures Valid()
      ensures h == old(h) + if evicted.Some? then [Evicted(evicted.value)] else []
      ensures m.Keys <= old(m).Keys && forall k :: k in m ==> Live(m[k], now) && m[k] == old(m)[k]
      ensures evicted.Some? ==> evicted.value in old(m) && evicted.value !in m && Live(old(m)[evicted.value], now)
      ensures evicted.Some? ==> GivenUp(old(m), evicted.value, now)
      ensures "" !in old(m) && |old(m)| <= MAX_TRACKED ==> |m| < MAX_TRACKED
    {
      hide Tracks, Live, GivenUp, Addressed;
      ghost var was := m;
      var oldestKey := DropExpired(now);
      evicted := None;
      SizeOfSubset(m.Keys, was.Keys);
      if |m| >= MAX_TRACKED && oldestKey != "" {
        evicted := Some(oldestKey);
        GivesUp(was, m, oldestKey, now);
        AddressedMore(h, Evicted(oldestKey));
        Forgotten(m, h, oldestKey, now);
        SizeOfRemoval(m, oldestKey);
        m := m - {oldestKey};
        h := h + [Evicted(oldestKey)];
      }
    }
  }

  // A live entry given up: the map was full, nothing in it had expired, and no
  // entry was older.
  ghost predicate GivenUp(m: map<string, Entry>, ip: string, now: int)
    requires ip in m
  {
    "" !in m && |m| <= MAX_TRACKED ==>
      |m| == MAX_TRACKED && (forall k :: k in m ==> Live(m[k], now)) && forall k :: k in m ==> m[ip].first <= m[k].first
  }

  // What the walk leaves is a full map without expired entries.
  lemma GivesUp(was: map<string, Entry>, m: map<string, Entry>, oldest: string, now: int)
    requires m.Keys <= was.Keys && |m| >= MAX_TRACKED && oldest in m && forall k :: k in m ==> m[k] == was[k] && Live(m[k], now)
    requires "" !in was ==> forall k :: k in m ==> m[oldest].first <= m[k].first
    ensures GivenUp(was, oldest, now)
  {
    SizeOfSubset(m.Keys, was.Keys);
  }

  lemma Recorded(m: map<string, Entry>, h: seq<Event>, ip: string, now: int, e: Entry)
    requires Tracks(m, h, now)
    requires e == if ip in m && Live(m[ip], now) then Entry(m[ip].count + 1, m[ip].first) else Entry(1, now)
    ensures Tracks(m[ip := e], h + [Failed(ip, now)], now)
  {
    forall x ensures Window(h + [Failed(ip, now)], x) == if x == ip then Some(e) else Window(h, x) {
      WindowAfter(h, Failed(ip, now), x);
    }
  }

  lemma ExpiredDropped(m: map<string, Entry>, h: seq<Event>, ip: string, now: int)
    requires Tracks(m, h, now) && ip in m && !Live(m[ip], now)
    ensures Tracks(m - {ip}, h, now)
  {
  }

  lemma TimePasses(m: map<string, Entry>, h: seq<Event>, earlier: int, now: int)
    requires Tracks(m, h, earlier) && earlier <= now
    ensures Tracks(m, h, now)
  {
  }

  lemma Forgotten(m: map<string, Entry>, h: seq<Event>, ip: string, now: int)
    requires Tracks(m, h, now)
    ensures Tracks(m - {ip}, h + [Evicted(ip)], now)
  {
    forall x ensures Window(h + [Evicted(ip)], x) == if x == ip then None else Window(h, x) {
      WindowAfter(h, Evicted(ip), x);
    }
  }

  lemma SizeOfUpdate(m: map<string, Entry>, ip: string, e: Entry)
    ensures |m[ip := e]| == |m| + if ip in m then 0 else 1
  {
    assert m[ip := e].Keys == m.Keys + {ip};
  }

  lemma SizeOfRemoval(m: map<string, Entry>, ip: string)
    requires ip in m
    ensures |m - {ip}| == |m| - 1
  {
    assert (m - {ip}).Keys == m.Keys - {ip};
  }

  lemma SizeOfSubset(a: set<string>, b: set<string>)
    requires a <= b
    ensures |a| <= |b| && (|a| == |b| ==> a == b)
  {
    var rest := b - a;
    assert b == a + rest && a * rest == {};
  }
}
