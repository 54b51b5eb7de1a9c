/**
  Replaying several recordings at once. The player keeps one event per recording in a priority
  queue, sends the earliest, and puts the recording's next entry in its place. What it sends is a
  merge: every entry once, each due at its timestamp plus one common constant, and in order exactly
  when each recording is.
*/
module Player {

  /** The next entry of a recording, and when it is due. */
  datatype Event = Event(component: nat, ts: int, due: int)

  /** The `entry`-th entry of a recording as it was sent. */
  datatype Sent = Sent(component: nat, entry: nat, ts: int, due: int)

  /**
    `next` counts the entries fetched from each recording, `counts` those sent; `offset` is the time
    between the recordings and their replay.
  */
  datatype PlayState = PlayState(
    entries: seq<seq<int>>, next: seq<nat>, events: seq<Event>, sent: seq<Sent>, counts: seq<nat>, offset: int)
  {
    predicate Shape() {
      |next| == |counts| == |entries|
    }
  }

  predicate Sorted(s: seq<int>) {
    forall i, j :: 0 <= i < j < |s| ==> s[i] <= s[j]
  }

  predicate AllSorted(entries: seq<seq<int>>) {
    forall c :: 0 <= c < |entries| ==> Sorted(entries[c])
  }

  predicate SentSorted(sent: seq<Sent>) {
    forall p, q :: 0 <= p < q < |sent| ==> sent[p].ts <= sent[q].ts
  }

  function Sum(counts: seq<nat>): nat {
    if counts == [] then 0 else Sum(counts[..|counts| - 1]) + counts[|counts| - 1]
  }

  lemma {:induction false} SumOneMore(counts: seq<nat>, c: nat)
    requires c < |counts|
    ensures Sum(counts[c := counts[c] + 1]) == Sum(counts) + 1
  {
    var k := |counts| - 1;
    var more := counts[c := counts[c] + 1];
    if c == k {
      assert more[..k] == counts[..k];
    } else {
      assert more[..k] == counts[..k][c := counts[c] + 1];
      SumOneMore(counts[..k], c);
    }
  }

  function Lengths(entries: seq<seq<int>>): seq<nat> {
    seq(|entries|, c requires 0 <= c < |entries| => |entries[c]|)
  }

  lemma {:induction false} SumBelow(a: seq<nat>, b: seq<nat>)
    requires |a| == |b| && forall c :: 0 <= c < |a| ==> a[c] <= b[c]
    ensures Sum(a) <= Sum(b)
  {
    if a != [] { SumBelow(a[..|a| - 1], b[..|b| - 1]); }
  }

  lemma {:induction false} SumLess(a: seq<nat>, b: seq<nat>, c: nat)
    requires |a| == |b| && forall d :: 0 <= d < |a| ==> a[d] <= b[d]
    requires c < |a| && a[c] < b[c]
    ensures Sum(a) < Sum(b)
  {
    var k := |a| - 1;
    SumBelow(a[..k], b[..k]);
    if c < k { SumLess(a[..k], b[..k], c); }
  }

  lemma {:induction false} SumZero(n: nat)
    ensures Sum(seq(n, _ => 0)) == 0
  {
    if n > 0 {
      assert seq(n, _ => 0)[..n - 1] == seq(n - 1, _ => 0);
      SumZero(n - 1);
    }
  }

  // ---- what was sent of one recording --------------------------------------------------------

  function Part(sent: seq<Sent>, c: nat): seq<Sent> {
    if sent == [] then []
    else
      var last, before := sent[|sent| - 1], Part(sent[..|sent| - 1], c);
      if last.component == c then before + [last] else before
  }

  lemma PartAppend(sent: seq<Sent>, s: Sent, c: nat)
    ensures Part(sent + [s], c) == Part(sent, c) + if s.component == c then [s] else []
  {
    assert (sent + [s])[..|sent|] == sent;
  }

  /** The first `n` entries of a recording, each due at its timestamp plus the offset. */
  function Replayed(entries: seq<int>, c: nat, offset: int, n: nat): seq<Sent>
    requires n <= |entries|
  {
    seq(n, k requires 0 <= k < n => Sent(c, k, entries[k], entries[k] + offset))
  }

  lemma {:induction false} PartSorted(sent: seq<Sent>, c: nat, bound: int)
    requires SentSorted(sent) && forall p :: 0 <= p < |sent| ==> sent[p].ts <= bound
    ensures SentSorted(Part(sent, c)) && forall k :: 0 <= k < |Part(sent, c)| ==> Part(sent, c)[k].ts <= bound
  {
    if sent != [] {
      var k := |sent| - 1;
      PartSorted(sent[..k], c, sent[k].ts);
    }
  }

  // ---- the invariant -------------------------------------------------------------------------

  /** An event is its recording's latest fetched entry, not sent yet. */
  ghost predicate EventOk(s: PlayState, e: Event)
    requires s.Shape()
  {
    && e.component < |s.entries|
    && 1 <= s.next[e.component] <= |s.entries[e.component]|
    && s.counts[e.component] == s.next[e.component] - 1
    && e.ts == s.entries[e.component][s.next[e.component] - 1]
    && e.due == e.ts + s.offset
  }

  predicate HasEvent(s: PlayState, c: nat) {
    exists x :: 0 <= x < |s.events| && s.events[x].component == c
  }

  ghost predicate EventsOk(s: PlayState)
    requires s.Shape()
  {
    && (forall x :: 0 <= x < |s.events| ==> EventOk(s, s.events[x]))
    && (forall x, y :: 0 <= x < y < |s.events| ==> s.events[x].component != s.events[y].component)
    && (forall c: nat :: c < |s.entries| && !HasEvent(s, c) ==> s.counts[c] == |s.entries[c]|)
  }

  /** Of each recording, the first entries were sent, in order and on time. */
  ghost predicate PartsOk(s: PlayState)
    requires s.Shape()
  {
    forall c: nat :: c < |s.entries| ==>
      s.counts[c] <= |s.entries[c]| && Part(s.sent, c) == Replayed(s.entries[c], c, s.offset, s.counts[c])
  }

  /** Nothing sent is later than anything still to be sent. */
  ghost predicate Ordered(s: PlayState) {
    && SentSorted(s.sent)
    && forall p, x :: 0 <= p < |s.sent| && 0 <= x < |s.events| ==> s.sent[p].ts <= s.events[x].ts
  }

  ghost predicate Valid(s: PlayState) {
    && s.Shape()
    && EventsOk(s) && PartsOk(s)
    && |s.sent| == Sum(s.counts)
    && (AllSorted(s.entries) ==> Ordered(s))
  }

  // ---- sending -------------------------------------------------------------------------------

  predicate IsEarliest(s: PlayState, x: nat) {
    x < |s.events| && forall y :: 0 <= y < |s.events| ==> s.events[x].ts <= s.events[y].ts
  }

  /** Sends an event and fetches the recording's next entry, if it has one. */
  function Send(s: PlayState, x: nat): PlayState
    requires s.Shape() && x < |s.events| && s.events[x].component < |s.entries| && s.next[s.events[x].component] >= 1
  {
    var e := s.events[x];
    var c := e.component;
    var rest := s.events[..x] + s.events[x + 1..];
    var t := s.(sent := s.sent + [Sent(c, s.next[c] - 1, e.ts, e.due)],
                counts := s.counts[c := s.counts[c] + 1],
                events := rest);
    if s.next[c] < |s.entries[c]| then
      var ts := s.entries[c][s.next[c]];
      t.(events := rest + [Event(c, ts, e.due + (ts - e.ts))], next := s.next[c := s.next[c] + 1])
    else t
  }

  /** Where the events come from: all but the sent one stay, and its successor is new. */
  lemma SendEventAt(s: PlayState, x: nat, y: nat)
    requires s.Shape() && EventsOk(s) && x < |s.events| && y < |Send(s, x).events|
    ensures EventOk(s, s.events[x])
    ensures var t, c := Send(s, x), s.events[x].component;
      && EventOk(t, t.events[y])
      && (y < x ==> t.events[y] == s.events[y] && t.events[y].component != c)
      && (x <= y < |s.events| - 1 ==> t.events[y] == s.events[y + 1] && t.events[y].component != c)
      && (y == |s.events| - 1 ==> t.events[y].component == c)
  {
    var t := Send(s, x);
    assert EventOk(s, s.events[x]);
    if y < x {
      assert EventOk(s, s.events[y]);
    } else if y < |s.events| - 1 {
      assert EventOk(s, s.events[y + 1]);
    }
  }

  lemma SendEventsDistinct(s: PlayState, x: nat)
    requires s.Shape() && EventsOk(s) && x < |s.events|
    ensures var t := Send(s, x);
      forall y, z :: 0 <= y < z < |t.events| ==> t.events[y].component != t.events[z].component
  {
    var t := Send(s, x);
    forall y, z | 0 <= y < z < |t.events|
      ensures t.events[y].component != t.events[z].component
    {
      SendEventAt(s, x, y);
      SendEventAt(s, x, z);
    }
  }

  /** Only the sent recording may run out of events. */
  lemma SendLeavesEvents(s: PlayState, x: nat, d: nat)
    requires s.Shape() && EventsOk(s) && x < |s.events| && HasEvent(s, d)
    ensures d != s.events[x].component || s.next[d] < |s.entries[d]| ==> HasEvent(Send(s, x), d)
  {
    var t, c := Send(s, x), s.events[x].component;
    assert EventOk(s, s.events[x]);
    if d != c {
      var y :| 0 <= y < |s.events| && s.events[y].component == d;
      assert t.events[if y < x then y else y - 1] == s.events[y];
    } else if s.next[c] < |s.entries[c]| {
      assert t.events[|s.events| - 1].component == c;
    }
  }

  lemma SendEvents(s: PlayState, x: nat)
    requires s.Shape() && EventsOk(s) && x < |s.events|
    ensures EventsOk(Send(s, x))
  {
    var t, c := Send(s, x), s.events[x].component;
    assert EventOk(s, s.events[x]);
    SendEventsDistinct(s, x);
    forall y: nat | y < |t.events|
      ensures EventOk(t, t.events[y])
    {
      SendEventAt(s, x, y);
    }
    forall d: nat | d < |s.entries| && !HasEvent(t, d)
      ensures t.counts[d] == |t.entries[d]|
    {
      if HasEvent(s, d) { SendLeavesEvents(s, x, d); }
    }
  }

  lemma SendParts(s: PlayState, x: nat)
    requires s.Shape() && EventsOk(s) && PartsOk(s) && x < |s.events|
    ensures PartsOk(Send(s, x))
  {
    var t, e := Send(s, x), s.events[x];
    assert EventOk(s, e);
    var more := Sent(e.component, s.next[e.component] - 1, e.ts, e.due);
    forall c: nat | c < |s.entries|
      ensures t.counts[c] <= |t.entries[c]| && Part(t.sent, c) == Replayed(t.entries[c], c, t.offset, t.counts[c])
    {
      PartAppend(s.sent, more, c);
    }
  }

  lemma SendOrdered(s: PlayState, x: nat)
    requires s.Shape() && EventsOk(s) && AllSorted(s.entries) && Ordered(s) && IsEarliest(s, x)
    ensures Ordered(Send(s, x))
  {
    var t, e := Send(s, x), s.events[x];
    assert EventOk(s, e) && Sorted(s.entries[e.component]);
    forall y | 0 <= y < |t.events|
      ensures e.ts <= t.events[y].ts
    {
      if y < x {
        assert t.events[y] == s.events[y];
      } else if y < |s.events| - 1 {
        assert t.events[y] == s.events[y + 1];
      }
    }
    forall p, y | 0 <= p < |t.sent| && 0 <= y < |t.events|
      ensures t.sent[p].ts <= t.events[y].ts
    {
      if p < |s.sent| { assert t.sent[p] == s.sent[p]; }
    }
  }

  lemma SendKeepsValid(s: PlayState, x: nat)
    requires Valid(s) && IsEarliest(s, x)
    ensures Valid(Send(s, x))
  {
    SendEvents(s, x);
    SendParts(s, x);
    assert EventOk(s, s.events[x]);
    SumOneMore(s.counts, s.events[x].component);
    if AllSorted(s.entries) { SendOrdered(s, x); }
  }

  // ---- a finished replay ---------------------------------------------------------------------

  /** When no event is left, every recording was replayed completely. */
  lemma FinishedIsComplete(s: PlayState)
    requires Valid(s) && s.events == []
    ensures |s.sent| == Sum(Lengths(s.entries))
    ensures forall c: nat :: c < |s.entries| ==>
      Part(s.sent, c) == Replayed(s.entries[c], c, s.offset, |s.entries[c]|)
  {
    assert s.counts == Lengths(s.entries) by {
      forall c: nat | c < |s.entries|
        ensures s.counts[c] == |s.entries[c]|
      {
        assert !HasEvent(s, c);
      }
    }
  }

  /** No more is sent than there are entries, and then the replay is finished. */
  lemma SendsAreEntries(s: PlayState)
    requires Valid(s)
    ensures |s.sent| <= Sum(Lengths(s.entries))
    ensures |s.sent| == Sum(Lengths(s.entries)) <==> s.events == []
  {
    SumBelow(s.counts, Lengths(s.entries));
    if s.events == [] { FinishedIsComplete(s); }
    if s.events != [] {
      var c := s.events[0].component;
      assert EventOk(s, s.events[0]);
      SumLess(s.counts, Lengths(s.entries), c);
    }
  }

  /** The replay is in order exactly when every recording is. */
  lemma MergeIsSortedExactly(s: PlayState)
    requires Valid(s) && s.events == []
    ensures SentSorted(s.sent) <==> AllSorted(s.entries)
  {
    FinishedIsComplete(s);
    if SentSorted(s.sent) && s.sent != [] {
      forall c: nat | c < |s.entries|
        ensures Sorted(s.entries[c])
      {
        PartSorted(s.sent, c, s.sent[|s.sent| - 1].ts);
        var part := Part(s.sent, c);
        assert forall k :: 0 <= k < |part| ==> part[k].ts == s.entries[c][k];
      }
    } else if s.sent == [] {
      forall c: nat | c < |s.entries|
        ensures Sorted(s.entries[c])
      {
        assert Part(s.sent, c) == [];
      }
    }
  }

  // ---- the player's thread -------------------------------------------------------------------

  /** The first entry of each of the first `n` recordings, due at its time after the start. */
  function FirstEvents(entries: seq<seq<int>>, offset: int, n: nat): seq<Event>
    requires n <= |entries| && forall c :: 0 <= c < |entries| ==> entries[c] != []
  {
    seq(n, c requires 0 <= c < n => Event(c, entries[c][0], entries[c][0] + offset))
  }

  function Prepared(entries: seq<seq<int>>, offset: int): PlayState
    requires forall c :: 0 <= c < |entries| ==> entries[c] != []
  {
    PlayState(entries, seq(|entries|, _ => 1), FirstEvents(entries, offset, |entries|), [], seq(|entries|, _ => 0), offset)
  }

  lemma PreparedIsValid(entries: seq<seq<int>>, offset: int)
    requires forall c :: 0 <= c < |entries| ==> entries[c] != []
    ensures Valid(Prepared(entries, offset))
  {
    var s := Prepared(entries, offset);
    SumZero(|entries|);
    forall c: nat | c < |entries|
      ensures HasEvent(s, c)
    {
      assert s.events[c].component == c;
    }
  }

  lemma ReadyToPlay(s: PlayState)
    requires forall c :: 0 <= c < |s.entries| ==> s.entries[c] != []
    requires s == Prepared(s.entries, s.offset)
    ensures Valid(s)
  {
    PreparedIsValid(s.entries, s.offset);
  }

  predicate IsFirst(entries: seq<seq<int>>, first: int)
    requires forall c :: 0 <= c < |entries| ==> entries[c] != []
  {
    && (forall c :: 0 <= c < |entries| ==> first <= entries[c][0])
    && (entries != [] ==> exists c :: 0 <= c < |entries| && first == entries[c][0])
  }

  class PlayerModule {
    const entries: seq<seq<int>>
    var next: seq<nat>
    var events: seq<Event>
    var sent: seq<Sent>
    ghost var counts: seq<nat>
    ghost var offset: int

    constructor (entries: seq<seq<int>>)
      ensures this.entries == entries && next == seq(|entries|, _ => 0) && events == [] && sent == []
    {
      this.entries := entries;
      next, events, sent := seq(|entries|, _ => 0), [], [];
      counts, offset := seq(|entries|, _ => 0), 0;
    }

    ghost function State(): PlayState
      reads this
    {
      PlayState(entries, next, events, sent, counts, offset)
    }

    method FindFirst() returns (first: int)
      requires forall c :: 0 <= c < |entries| ==> entries[c] != []
      ensures IsFirst(entries, first)
    {
      first := if |entries| > 0 then entries[0][0] else 0;
      for c := 0 to |entries|
        invariant forall d :: 0 <= d < c ==> first <= entries[d][0]
        invariant entries != [] ==> exists d :: 0 <= d < |entries| && first == entries[d][0]
      {
        if entries[c][0] < first { first := entries[c][0]; }
      }
    }

    /** Fetches every recording's first entry. */
    method Prepare(start: int) returns (ghost first: int)
      requires forall c :: 0 <= c < |entries| ==> entries[c] != []
      requires |next| == |entries| && events == [] && sent == []
      modifies this
      ensures IsFirst(entries, first) && State() == Prepared(entries, start - first)
    {
      var earliest := FindFirst();
      first := earliest;
      offset := start - earliest;
      counts := seq(|entries|, _ => 0);
      for c := 0 to |entries|
        invariant |next| == |entries| && forall d :: 0 <= d < c ==> next[d] == 1
        invariant events == FirstEvents(entries, start - earliest, c)
        invariant sent == [] && offset == start - earliest && counts == seq(|entries|, _ => 0)
      {
        var ts := entries[c][0];
        next := next[c := 1];
        events := events + [Event(c, ts, start + (ts - earliest))];
      }
      assert next == seq(|entries|, _ => 1);
    }

    /** The queue is filled before the first event is taken from it. */
    method FillQueue(start: int)
      requires forall c :: 0 <= c < |entries| ==> entries[c] != []
      requires |next| == |entries| && events == [] && sent == []
      modifies this
      ensures Valid(State()) && sent == []
      ensures exists first :: IsFirst(entries, first) && offset == start - first
    {
      ghost var first := Prepare(start);
      assert State() == Prepared(entries, offset);
      ReadyToPlay(State());
    }

    method FindEarliest() returns (x: nat)
      requires events != []
      ensures IsEarliest(State(), x)
    {
      x := 0;
      for y := 0 to |events|
        invariant x < |events| && forall z :: 0 <= z < y ==> events[x].ts <= events[z].ts
      {
        if events[y].ts < events[x].ts { x := y; }
      }
    }

    /** Sends the event and fetches the recording's next entry; false when there is none. */
    method SendAndNext(x: nat) returns (more: bool)
      requires State().Shape() && x < |events|
      requires events[x].component < |entries| && next[events[x].component] >= 1
      modifies this
      ensures State() == Send(old(State()), x)
      ensures more <==> |events| == |old(events)|
    {
      ghost var s := State();
      var e := events[x];
      var c := e.component;
      events := events[..x] + events[x + 1..];
      sent := sent + [Sent(c, next[c] - 1, e.ts, e.due)];
      counts := counts[c := counts[c] + 1];
      if next[c] >= |entries[c]| { return false; }
      var ts := entries[c][next[c]];
      next := next[c := next[c] + 1];
      events := events + [Event(c, ts, e.due + (ts - e.ts))];
      return true;
    }

    /** Sends the earliest event and puts the recording's next one in its place. */
    method PlayNext()
      requires Valid(State()) && events != []
      modifies this
      ensures Valid(State()) && |sent| == |old(sent)| + 1 && offset == old(offset)
    {
      ghost var s := State();
      var x := FindEarliest();
      SendKeepsValid(s, x);
      assert EventOk(s, s.events[x]);
      var more := SendAndNext(x);
    }

    method PlayAll(sends: nat)
      requires Valid(State()) && sent == []
      modifies this
      ensures offset == old(offset)
      ensures |sent| == if sends <= Sum(Lengths(entries)) then sends else Sum(Lengths(entries))
      ensures AllSorted(entries) ==> SentSorted(sent)
      ensures IsReplay(entries, offset, sent)
      ensures sends >= Sum(Lengths(entries)) ==> IsMerge(entries, offset, sent)
    {
      while |sent| < sends && events != []
        invariant Valid(State()) && |sent| <= sends && offset == old(offset)
        decreases sends - |sent|
      {
        PlayNext();
      }
      MergeWhenFinished(State(), sends);
    }

    /**
      Plays until nothing is left or, after `sends` sends, it is stopped. Played to the end, it has
      sent every entry of every recording once, each recording in order, all with the same delay;
      the whole is in order exactly when each recording is.
    */
    method ThreadLoop(start: int, sends: nat)
      requires forall c :: 0 <= c < |entries| ==> entries[c] != []
      requires |next| == |entries| && events == [] && sent == []
      modifies this
      ensures exists first :: IsFirst(entries, first) && offset == start - first
      ensures |sent| == if sends <= Sum(Lengths(entries)) then sends else Sum(Lengths(entries))
      ensures AllSorted(entries) ==> SentSorted(sent)
      ensures IsReplay(entries, offset, sent)
      ensures sends >= Sum(Lengths(entries)) ==> IsMerge(entries, offset, sent)
    {
      FillQueue(start);
      PlayAll(sends);
    }
  }

  /** What was sent of each recording is its first entries in order, each due the same time after its own. */
  ghost predicate IsReplay(entries: seq<seq<int>>, offset: int, sent: seq<Sent>) {
    forall c: nat :: c < |entries| ==>
      && |Part(sent, c)| <= |entries[c]|
      && forall k :: 0 <= k < |Part(sent, c)| ==> Part(sent, c)[k] == Sent(c, k, entries[c][k], entries[c][k] + offset)
  }

  /** Every recording was replayed completely, and the whole is in order exactly when each recording is. */
  ghost predicate IsMerge(entries: seq<seq<int>>, offset: int, sent: seq<Sent>) {
    && IsReplay(entries, offset, sent)
    && (forall c: nat :: c < |entries| ==> |Part(sent, c)| == |entries[c]|)
    && (SentSorted(sent) <==> AllSorted(entries))
  }

  lemma MergeWhenFinished(s: PlayState, sends: nat)
    requires Valid(s) && |s.sent| <= sends && (s.events == [] || |s.sent| == sends)
    ensures |s.sent| == if sends <= Sum(Lengths(s.entries)) then sends else Sum(Lengths(s.entries))
    ensures AllSorted(s.entries) ==> SentSorted(s.sent)
    ensures IsReplay(s.entries, s.offset, s.sent)
    ensures sends >= Sum(Lengths(s.entries)) ==> IsMerge(s.entries, s.offset, s.sent)
  {
    SendsAreEntries(s);
    if s.events == [] {
      FinishedIsComplete(s);
      MergeIsSortedExactly(s);
    }
  }
}
