/** What the callers of a conditional write may rely on, and the one thing they may not. */
module CasResults {
  import opened Options
  import opened Lex
  import opened Timestamp
  import opened Cas

  // ---------- Tokens ----------

  lemma {:induction false} DecimalValue(n: nat)
    ensures AllDigits(Decimal(n)) && Timestamp.Value(Decimal(n)) == n
  {
    if n >= 10 {
      DecimalValue(n / 10);
      var d := Decimal(n);
      assert d[..|d| - 1] == Decimal(n / 10);
    } else {
      var d := Decimal(n);
      assert d[..|d| - 1] == [];
    }
  }

  /** A generation read back as text asks for that generation. */
  lemma TokenNamesGeneration(gen: nat)
    requires gen <= 0x7FFF_FFFF_FFFF_FFFF
    ensures WantedGeneration(Some(Decimal(gen))) == gen
  {
    DecimalValue(gen);
    var d := Decimal(gen);
    assert IsDigit(d[0]);
  }

  // ---------- At most once ----------

  /** No generation is ever replaced by two conditional or plain writes. */
  lemma OneSuccessor(s: Server, i: nat, j: nat)
    requires Chained(s) && i < |s.log| && j < |s.log| && s.log[i].prior == s.log[j].prior > 0
    ensures i == j
  {
    if i < j {
      PriorsRise(s, i, j);
    } else if j < i {
      PriorsRise(s, j, i);
    }
  }

  lemma PriorsRise(s: Server, i: nat, j: nat)
    requires Chained(s) && i < j < |s.log| && s.log[j].prior > 0
    ensures s.log[i].prior < s.log[j].prior
  {
  }

  /** A write that names a token takes effect at most once, however often it was sent and however late
      its requests landed. */
  lemma TokenWriteLandsOnce(states: seq<State>, events: seq<Event>, n: nat, c: nat, k: nat, m: nat)
    requires IsRun(states, events) && n < |states| && c < |states[n].calls|
    requires states[n].calls[c].want != 0
    requires k < |states[n].calls[c].attempts| && states[n].calls[c].attempts[k].Landed?
    requires m < |states[n].calls[c].attempts| && states[n].calls[c].attempts[m].Landed?
    ensures k == m
  {
    RunsKeepInv(states, events, n);
    var s := states[n];
    var i: nat :| Made(s, c, k, i);
    var j: nat :| Made(s, c, m, j);
    OneSuccessor(s.server, i, j);
  }

  /** Of all the writes that ever name the same token, by any clients, at most one takes effect. */
  lemma OneWriterPerToken(states: seq<State>, events: seq<Event>, n: nat,
                                             c: nat, k: nat, d: nat, m: nat)
    requires IsRun(states, events) && n < |states| && c < |states[n].calls| && d < |states[n].calls|
    requires states[n].calls[c].want == states[n].calls[d].want != 0
    requires k < |states[n].calls[c].attempts| && states[n].calls[c].attempts[k].Landed?
    requires m < |states[n].calls[d].attempts| && states[n].calls[d].attempts[m].Landed?
    ensures c == d && k == m
  {
    RunsKeepInv(states, events, n);
    var s := states[n];
    var i: nat :| Made(s, c, k, i);
    var j: nat :| Made(s, d, m, j);
    OneSuccessor(s.server, i, j);
  }

  /** Version `i` is what call `c` wrote with its last request, in the place of exactly the generation
      it expected. */
  ghost predicate ReplacedExpected(s: State, c: nat, i: nat) {
    && c < |s.calls| && i < |s.server.log| && s.calls[c].attempts != []
    && s.server.log[i].bytes == s.calls[c].bytes && s.server.log[i].prior == s.calls[c].want
    && s.server.log[i].writer == By(c, |s.calls[c].attempts| - 1)
    && (s.calls[c].want != 0 ==> i > 0 && s.server.log[i - 1].gen == s.calls[c].want)
  }

  /** `Written` means the bytes became a version that replaced exactly the expected one, with nothing
      stored in between; for a create, that the object was absent. */
  lemma WrittenReplacedExpected(states: seq<State>, events: seq<Event>, n: nat, c: nat)
    requires IsRun(states, events) && n < |states| && c < |states[n].calls|
    requires states[n].calls[c].reply == Answered(Written)
    ensures exists i: nat :: ReplacedExpected(states[n], c, i)
  {
    RunsKeepInv(states, events, n);
    var s := states[n];
    assert Replied(s.calls[c]);
    var i: nat :| Made(s, c, |s.calls[c].attempts| - 1, i);
    if s.calls[c].want != 0 {
      var before := i - 1;
      assert s.server.log[before].gen == s.server.log[i].prior;
    }
    assert ReplacedExpected(s, c, i);
  }

  // ---------- Creates ----------

  /** Between two versions that were both created out of nothing lies a delete. */
  lemma DeleteBetweenCreates(s: Server, i: nat, j: nat)
    requires Chained(s) && i < j < |s.log| && s.log[i].prior == s.log[j].prior == 0
    ensures s.log[i].era < s.log[j].era
  {
    assert s.log[i].gen <= s.log[j].prior || s.log[i].era < s.log[j].era;
  }

  /** Among racing exclusive creates, while nothing deletes the object, at most one returns true. */
  lemma OneExclusiveCreate(states: seq<State>, events: seq<Event>, n: nat, c: nat, d: nat)
    requires IsRun(states, events) && n < |states| && states[n].server.deletes == 0
    requires c < |states[n].calls| && d < |states[n].calls|
    requires states[n].calls[c].want == 0 && states[n].calls[d].want == 0
    requires states[n].calls[c].reply.Answered? && Created(states[n].calls[c].reply.outcome) == Some(true)
    requires states[n].calls[d].reply.Answered? && Created(states[n].calls[d].reply.outcome) == Some(true)
    ensures c == d
  {
    RunsKeepInv(states, events, n);
    var s := states[n];
    assert Replied(s.calls[c]) && Replied(s.calls[d]);
    var i: nat :| Made(s, c, |s.calls[c].attempts| - 1, i);
    var j: nat :| Made(s, d, |s.calls[d].attempts| - 1, j);
    if i < j {
      DeleteBetweenCreates(s.server, i, j);
    } else if j < i {
      DeleteBetweenCreates(s.server, j, i);
    }
  }

  /** Two creates that took effect have a delete between the versions they made. */
  lemma TwoCreatesNeedADelete(states: seq<State>, events: seq<Event>, n: nat,
                                                 c: nat, k: nat, i: nat, d: nat, m: nat, j: nat)
    requires IsRun(states, events) && n < |states| && Made(states[n], c, k, i) && Made(states[n], d, m, j)
    requires states[n].calls[c].want == 0 && states[n].calls[d].want == 0 && i < j
    ensures states[n].server.log[i].era < states[n].server.log[j].era
  {
    RunsKeepInv(states, events, n);
    DeleteBetweenCreates(states[n].server, i, j);
  }

  // ---------- What each answer says ----------

  /** Attempt `k` of call `c` reached the server at step `a`, and landed exactly if the live generation was the
      one wanted. */
  ghost predicate ArrivedAt(states: seq<State>, events: seq<Event>, a: nat, c: nat, k: nat, call: Call)
    requires |states| == |events| + 1
  {
    && a < |events| && events[a] == Arrives(c, k) && k < |call.attempts|
    && (call.attempts[k].Landed? <==> states[a].server.current == call.want)
  }

  /** Every request that was resolved reached the server at some step, which decided it. */
  lemma {:induction false} ResolvedOnArrival(states: seq<State>, events: seq<Event>, n: nat, c: nat, k: nat)
    requires IsRun(states, events) && n < |states| && c < |states[n].calls|
    requires k < |states[n].calls[c].attempts| && states[n].calls[c].attempts[k] != InFlight
    ensures exists a: nat :: a < n && ArrivedAt(states, events, a, c, k, states[n].calls[c])
    decreases n
  {
    var s, e, t := states[n - 1], events[n - 1], states[n];
    assert Happens(s, e, t);
    EveryStepGrows(s, e, t);
    if c < |s.calls| && k < |s.calls[c].attempts| && s.calls[c].attempts[k] != InFlight {
      ResolvedOnArrival(states, events, n - 1, c, k);
      var a: nat :| a < n - 1 && ArrivedAt(states, events, a, c, k, s.calls[c]);
      assert CallGrows(s.calls[c], t.calls[c]);
      assert ArrivedAt(states, events, a, c, k, t.calls[c]);
    } else {
      assert ArrivedAt(states, events, n - 1, c, k, t.calls[c]);
    }
  }

  /** A create-if-absent, or any write that names a generation, is answered with true exactly when its last request
      found the generation it wanted on its arrival, and with false otherwise. */
  lemma AnswerTellsArrival(states: seq<State>, events: seq<Event>, n: nat, c: nat)
    requires IsRun(states, events) && n < |states| && c < |states[n].calls| && states[n].calls[c].reply.Answered?
    ensures var call := states[n].calls[c];
      && |call.attempts| > 0
      && exists a: nat :: a < n && events[a] == Arrives(c, |call.attempts| - 1)
                          && Created(call.reply.outcome) == Some(states[a].server.current == call.want)
  {
    RunsKeepInv(states, events, n);
    var call := states[n].calls[c];
    assert Replied(call);
    assert call.reply == Answered(Written) || call.reply == Answered(Stale) by {
      assert call.reply.outcome != Unsupported;
    }
    ResolvedOnArrival(states, events, n, c, |call.attempts| - 1);
    var a: nat :| a < n && ArrivedAt(states, events, a, c, |call.attempts| - 1, call);
  }

  /** A token that is no number, or a negative one, never writes anything. */
  lemma BadTokenNeverLands(states: seq<State>, events: seq<Event>, n: nat, c: nat, k: nat)
    requires IsRun(states, events) && n < |states| && c < |states[n].calls| && k < |states[n].calls[c].attempts|
    requires states[n].calls[c].want < 0
    ensures !states[n].calls[c].attempts[k].Landed?
  {
    if states[n].calls[c].attempts[k].Landed? {
      ResolvedOnArrival(states, events, n, c, k);
    }
  }

  lemma UnreadableTokenIsNegative(token: Text)
    requires ParseI64(token).None?
    ensures WantedGeneration(Some(token)) < 0
  {
  }

  /** Whether call `c` lost an answer to a dropped connection by step `n`. */
  ghost predicate Dropped(events: seq<Event>, n: nat, c: nat)
    requires n <= |events|
  {
    exists a: nat :: a < n && events[a].Loses? && events[a].call == c
      && events[a].fault in {ConnectionAborted, ConnectionReset, UnexpectedEof, BrokenPipe, NotConnected}
  }

  lemma DroppedLater(events: seq<Event>, n: nat, c: nat)
    requires n < |events|
    ensures Dropped(events, n + 1, c) <==> Dropped(events, n, c) || Dropping(events[n], c)
  {
    if Dropping(events[n], c) {
      var a := n;
      assert events[a].Loses?;
    }
  }

  ghost predicate Dropping(e: Event, c: nat) {
    e.Loses? && e.call == c
    && (e.fault == ConnectionAborted || e.fault == ConnectionReset || e.fault == UnexpectedEof
        || e.fault == BrokenPipe || e.fault == NotConnected)
  }

  /** A request is sent a second time exactly when an answer was lost to a dropped connection, and never a third. */
  lemma {:induction false} ReplayedIffDropped(states: seq<State>, events: seq<Event>, n: nat, c: nat)
    requires IsRun(states, events) && n < |states| && c < |states[n].calls|
    ensures |states[n].calls[c].attempts| == if Dropped(events, n, c) then 2 else 1
    decreases n
  {
    RunsKeepInv(states, events, n);
    if n > 0 {
      var s, e, t := states[n - 1], events[n - 1], states[n];
      assert Happens(s, e, t);
      DroppedLater(events, n - 1, c);
      if c < |s.calls| {
        ReplayedIffDropped(states, events, n - 1, c);
      } else {
        NothingLostYet(states, events, n - 1, c);
      }
    }
  }

  /** Nothing is lost for a call that has not begun. */
  lemma {:induction false} NothingLostYet(states: seq<State>, events: seq<Event>, n: nat, c: nat)
    requires IsRun(states, events) && n < |states| && c >= |states[n].calls|
    ensures !Dropped(events, n, c)
    decreases n
  {
    if n > 0 {
      assert Happens(states[n - 1], events[n - 1], states[n]);
      EveryStepGrows(states[n - 1], events[n - 1], states[n]);
      NothingLostYet(states, events, n - 1, c);
      DroppedLater(events, n - 1, c);
    }
  }

  // ---------- What `Stale` does not mean ----------

  /** An answer of `Stale` to a write that was not replayed means it had no effect; to one that was, only
      the replay certainly had none. */
  lemma StaleMeans(states: seq<State>, events: seq<Event>, n: nat, c: nat, k: nat)
    requires IsRun(states, events) && n < |states| && c < |states[n].calls|
    requires states[n].calls[c].reply == Answered(Stale)
    requires k < |states[n].calls[c].attempts| && states[n].calls[c].attempts[k].Landed?
    ensures |states[n].calls[c].attempts| == 2 && k == 0
  {
    RunsKeepInv(states, events, n);
    assert Replied(states[n].calls[c]);
  }

  lemma Resolve(call: Call, k: nat, a: Attempt)
    requires k < |call.attempts| <= 2
    ensures [call][0 := call.(attempts := call.attempts[k := a])] == [call.(attempts := call.attempts[k := a])]
    ensures |call.attempts| == 1 ==> call.attempts[k := a] == [a]
    ensures |call.attempts| == 2 && k == 1 ==> call.attempts[k := a] == [call.attempts[0], a]
  {
  }

  lemma Resend(call: Call)
    requires |call.attempts| == 1
    ensures call.attempts + [InFlight] == [call.attempts[0], InFlight]
    ensures [call][0 := call.(attempts := call.attempts + [InFlight])] == [call.(attempts := call.attempts + [InFlight])]
  {
  }

  /** A create can report that someone else holds the object when its own lost request made it. */
  lemma StaleThoughLanded(bytes: Text)
    returns (states: seq<State>, events: seq<Event>)
    ensures IsRun(states, events)
    ensures var s := states[|events|];
            && |s.calls| == 1 && s.calls[0].reply == Answered(Stale)
            && |s.calls[0].attempts| == 2 && s.calls[0].attempts[0].Landed? && s.server.log == [Version(1, bytes, 0, By(0, 0), 0)]
  {
    events := [Starts(bytes, None), Arrives(0, 0), Loses(0, ConnectionReset), Arrives(0, 1), Answers(0)];
    var empty := Server(0, 1, 0, []);
    var held := Server(1, 2, 0, [Version(1, bytes, 0, By(0, 0), 0)]);
    var s0 := State(empty, []);
    var s1 := State(empty, [Call(bytes, 0, [InFlight], Waiting)]);
    var s2 := State(held, [Call(bytes, 0, [Landed(1)], Waiting)]);
    var s3 := State(held, [Call(bytes, 0, [Landed(1), InFlight], Waiting)]);
    var s4 := State(held, [Call(bytes, 0, [Landed(1), Rejected], Waiting)]);
    var s5 := State(held, [Call(bytes, 0, [Landed(1), Rejected], Answered(Stale))]);
    states := [s0, s1, s2, s3, s4, s5];
    var call := Call(bytes, 0, [InFlight], Waiting);
    Resolve(call, 0, Landed(1));
    Resend(call.(attempts := [Landed(1)]));
    Resolve(call.(attempts := [Landed(1), InFlight]), 1, Rejected);
    assert Begin(s0, s1, bytes, None);
    assert Arrive(s1, s2, 0, 0);
    assert Lose(s2, s3, 0, ConnectionReset);
    assert Arrive(s3, s4, 0, 1);
    assert Answer(s4, s5, 0);
  }

  /** With a delete between its two requests one create can take effect twice. */
  lemma CreateLandsTwice(bytes: Text)
    returns (states: seq<State>, events: seq<Event>)
    ensures IsRun(states, events)
    ensures var s := states[|events|];
            && |s.calls| == 1 && s.calls[0].reply == Answered(Written)
            && |s.calls[0].attempts| == 2 && s.calls[0].attempts[0].Landed? && s.calls[0].attempts[1].Landed?
  {
    events := [Starts(bytes, None), Arrives(0, 0), Loses(0, ConnectionReset), Deletes, Arrives(0, 1), Answers(0)];
    var first := Version(1, bytes, 0, By(0, 0), 0);
    var empty := Server(0, 1, 0, []);
    var held := Server(1, 2, 0, [first]);
    var gone := Server(0, 2, 1, [first]);
    var again := Server(2, 3, 1, [first, Version(2, bytes, 0, By(0, 1), 1)]);
    var s0 := State(empty, []);
    var s1 := State(empty, [Call(bytes, 0, [InFlight], Waiting)]);
    var s2 := State(held, [Call(bytes, 0, [Landed(1)], Waiting)]);
    var s3 := State(held, [Call(bytes, 0, [Landed(1), InFlight], Waiting)]);
    var s4 := State(gone, [Call(bytes, 0, [Landed(1), InFlight], Waiting)]);
    var s5 := State(again, [Call(bytes, 0, [Landed(1), Landed(2)], Waiting)]);
    var s6 := State(again, [Call(bytes, 0, [Landed(1), Landed(2)], Answered(Written))]);
    states := [s0, s1, s2, s3, s4, s5, s6];
    var call := Call(bytes, 0, [InFlight], Waiting);
    Resolve(call, 0, Landed(1));
    Resend(call.(attempts := [Landed(1)]));
    Resolve(call.(attempts := [Landed(1), InFlight]), 1, Landed(2));
    assert Begin(s0, s1, bytes, None);
    assert Arrive(s1, s2, 0, 0);
    assert Lose(s2, s3, 0, ConnectionReset);
    assert Remove(s3, s4);
    assert Arrive(s4, s5, 0, 1);
    assert Answer(s5, s6, 0);
  }
}
