/** Conditional writes to one object over a transport that replays a dropped request once. Requests
    may land late, after the client gave up on them; the server never reuses a generation. */
module Cas {
  import opened Options
  import opened Lex
  import opened Timestamp

  // ---------- Client side ----------

  datatype Fault = ConnectionAborted | ConnectionReset | UnexpectedEof | BrokenPipe | NotConnected
                 | OtherIo | NotIo

  /** The faults of a dropped pooled connection. */
  predicate WorthRetrying(f: Fault) {
    f.ConnectionAborted? || f.ConnectionReset? || f.UnexpectedEof? || f.BrokenPipe? || f.NotConnected?
  }

  /** The generation a request insists on: zero for "absent", minus one for a token no generation has. */
  function WantedGeneration(expected: Option<Text>): int {
    match expected
    case None => 0
    case Some(token) =>
      match ParseI64(token)
      case Some(g) => g
      case None => -1
  }

  datatype Outcome = Written | Stale | Unsupported

  /** Create-if-absent as the backends answer it. */
  function Created(o: Outcome): (r: Option<bool>)
    ensures r.None? <==> o.Unsupported?
  {
    match o
    case Written => Some(true)
    case Stale => Some(false)
    case Unsupported => None
  }

  // ---------- The state machine ----------

  datatype Writer = Plain | By(call: nat, attempt: nat)

  /** One version of the object: what it replaced (zero for none) and how many deletes came before. */
  datatype Version = Version(gen: nat, bytes: Text, prior: nat, writer: Writer, era: nat)

  /** `current` is the live generation, zero when the object is absent. */
  datatype Server = Server(current: nat, next: nat, deletes: nat, log: seq<Version>)

  datatype Attempt = InFlight | Landed(gen: nat) | Rejected

  datatype Reply = Waiting | Answered(outcome: Outcome) | Failed

  datatype Call = Call(bytes: Text, want: int, attempts: seq<Attempt>, reply: Reply)

  datatype State = State(server: Server, calls: seq<Call>)

  function Store(s: Server, bytes: Text, writer: Writer): Server {
    s.(current := s.next, next := s.next + 1,
       log := s.log + [Version(s.next, bytes, s.current, writer, s.deletes)])
  }

  /** A client starts a conditional write and sends it. */
  ghost predicate Begin(s: State, t: State, bytes: Text, expected: Option<Text>) {
    t == s.(calls := s.calls + [Call(bytes, WantedGeneration(expected), [InFlight], Waiting)])
  }

  /** A request reaches the server, which stores it if the live generation is the one it wants. */
  ghost predicate Arrive(s: State, t: State, c: nat, k: nat) {
    && c < |s.calls| && k < |s.calls[c].attempts| && s.calls[c].attempts[k] == InFlight
    && var call := s.calls[c];
       if call.want == s.server.current then
         t == State(Store(s.server, call.bytes, By(c, k)),
                    s.calls[c := call.(attempts := call.attempts[k := Landed(s.server.next)])])
       else
         t == s.(calls := s.calls[c := call.(attempts := call.attempts[k := Rejected])])
  }

  /** The answer to the last request sent comes back. */
  ghost predicate Answer(s: State, t: State, c: nat) {
    && c < |s.calls| && s.calls[c].reply == Waiting && s.calls[c].attempts != []
    && var call := s.calls[c];
       var last := call.attempts[|call.attempts| - 1];
       && last != InFlight
       && t == s.(calls := s.calls[c := call.(reply := Answered(if last == Rejected then Stale else Written))])
  }

  /** The client sees a fault instead: the first one, if it looks like a dropped connection, is
      answered by sending the same request again; any other fails the call. */
  ghost predicate Lose(s: State, t: State, c: nat, f: Fault) {
    && c < |s.calls| && s.calls[c].reply == Waiting
    && var call := s.calls[c];
       if |call.attempts| == 1 && WorthRetrying(f)
       then t == s.(calls := s.calls[c := call.(attempts := call.attempts + [InFlight])])
       else t == s.(calls := s.calls[c := call.(reply := Failed)])
  }

  ghost predicate PlainPut(s: State, t: State, bytes: Text) {
    t == s.(server := Store(s.server, bytes, Plain))
  }

  ghost predicate Remove(s: State, t: State) {
    && s.server.current != 0
    && t == s.(server := s.server.(current := 0, deletes := s.server.deletes + 1))
  }

  datatype Event =
    | Starts(bytes: Text, expected: Option<Text>) | Arrives(call: nat, attempt: nat) | Answers(call: nat)
    | Loses(call: nat, fault: Fault) | Puts(bytes: Text) | Deletes

  ghost predicate Happens(s: State, e: Event, t: State) {
    match e
    case Starts(bytes, expected) => Begin(s, t, bytes, expected)
    case Arrives(c, k) => Arrive(s, t, c, k)
    case Answers(c) => Answer(s, t, c)
    case Loses(c, f) => Lose(s, t, c, f)
    case Puts(bytes) => PlainPut(s, t, bytes)
    case Deletes => Remove(s, t)
  }

  /** Before any call: no object, or one whose history is not known. */
  ghost predicate Init(s: State) {
    && s.calls == [] && s.server.next >= 1 && s.server.deletes == 0
    && ((s.server.current == 0 && s.server.log == [])
        || exists bytes :: s.server.log == [Version(s.server.current, bytes, 0, Plain, 0)]
                          && 0 < s.server.current < s.server.next)
  }

  ghost predicate IsRun(states: seq<State>, events: seq<Event>) {
    && |states| == |events| + 1 && Init(states[0])
    && forall k, next :: 0 <= k < |events| && next == k + 1 ==> Happens(states[k], events[k], states[next])
  }

  // ---------- What every step keeps ----------

  /** A version that replaced another replaced the one just before it. */
  ghost predicate Consecutive(s: Server) {
    && (s.current > 0 ==> s.log != [] && s.log[|s.log| - 1].gen == s.current)
    && (s.log != [] ==> s.log[0].prior == 0)
    && (forall i, j :: 0 <= i < |s.log| && j == i + 1 && j < |s.log| && s.log[j].prior > 0 ==>
          s.log[i].gen == s.log[j].prior)
  }

  /** Generations and eras rise along the log. */
  ghost predicate Rising(s: Server) {
    && s.current < s.next
    && (forall i :: 0 <= i < |s.log| ==> s.log[i].prior < s.log[i].gen < s.next && s.log[i].era <= s.deletes)
    && (forall i, j :: 0 <= i < j < |s.log| ==> s.log[i].gen < s.log[j].gen && s.log[i].era <= s.log[j].era)
  }

  /** What a version replaced is no older than any version before it, unless a delete lies between. */
  ghost predicate Fenced(s: Server) {
    && (forall i, j :: 0 <= i < j < |s.log| ==> s.log[i].gen <= s.log[j].prior || s.log[i].era < s.log[j].era)
    && (forall i, j :: 0 <= i < j < |s.log| && s.log[j].prior > 0 ==> s.log[i].gen <= s.log[j].prior)
    && (forall i :: 0 <= i < |s.log| ==> s.log[i].gen <= s.current || (s.current == 0 && s.log[i].era < s.deletes))
  }

  /** Versions form a chain: each replaced the one before it or came after a delete. */
  ghost predicate Chained(s: Server) {
    Rising(s) && Fenced(s)
  }

  /** `i` is the version that attempt `k` of call `c` made. */
  ghost predicate Made(s: State, c: nat, k: nat, i: nat) {
    && c < |s.calls| && k < |s.calls[c].attempts| && i < |s.server.log|
    && s.server.log[i].writer == By(c, k)
    && s.calls[c].attempts[k] == Landed(s.server.log[i].gen)
    && s.server.log[i].bytes == s.calls[c].bytes && s.server.log[i].prior == s.calls[c].want
  }

  ghost predicate Recorded(s: State) {
    && (forall i :: 0 <= i < |s.server.log| && s.server.log[i].writer.By? ==>
          Made(s, s.server.log[i].writer.call, s.server.log[i].writer.attempt, i))
    && (forall c, k :: 0 <= c < |s.calls| && 0 <= k < |s.calls[c].attempts| && s.calls[c].attempts[k].Landed? ==>
          exists i: nat :: Made(s, c, k, i))
  }

  ghost predicate Replied(call: Call) {
    && 1 <= |call.attempts| <= 2
    && (call.reply == Answered(Written) ==> call.attempts[|call.attempts| - 1].Landed?)
    && (call.reply == Answered(Stale) ==> call.attempts[|call.attempts| - 1] == Rejected)
    && call.reply != Answered(Unsupported)
  }

  ghost predicate Inv(s: State) {
    && Chained(s.server) && Consecutive(s.server) && Recorded(s)
    && forall c :: 0 <= c < |s.calls| ==> Replied(s.calls[c])
  }

  lemma StoreKeepsRising(s: Server, bytes: Text, writer: Writer)
    requires Rising(s)
    ensures Rising(Store(s, bytes, writer))
  {
    var t := Store(s, bytes, writer);
    assert forall i :: 0 <= i < |s.log| ==> t.log[i] == s.log[i];
  }

  lemma StoreKeepsFenced(s: Server, bytes: Text, writer: Writer)
    requires Rising(s) && Fenced(s)
    ensures Fenced(Store(s, bytes, writer))
  {
    var t := Store(s, bytes, writer);
    assert forall i :: 0 <= i < |s.log| ==> t.log[i] == s.log[i];
  }

  lemma StoreKeepsChain(s: Server, bytes: Text, writer: Writer)
    requires Chained(s)
    ensures Chained(Store(s, bytes, writer))
  {
    StoreKeepsRising(s, bytes, writer);
    StoreKeepsFenced(s, bytes, writer);
  }

  lemma StoreKeepsConsecutive(s: Server, bytes: Text, writer: Writer)
    requires Consecutive(s)
    ensures s.next > 0 ==> Consecutive(Store(s, bytes, writer))
  {
    var t := Store(s, bytes, writer);
    assert forall i :: 0 <= i < |s.log| ==> t.log[i] == s.log[i];
  }

  lemma StepConsecutive(s: State, e: Event, t: State)
    requires Consecutive(s.server) && s.server.next > 0 && Happens(s, e, t)
    ensures Consecutive(t.server)
  {
    match e
    case Arrives(c, k) => StoreKeepsConsecutive(s.server, s.calls[c].bytes, By(c, k));
    case Puts(bytes) => StoreKeepsConsecutive(s.server, bytes, Plain);
    case Starts(_, _) =>
    case Answers(_) =>
    case Loses(_, _) =>
    case Deletes =>
  }

  lemma InitHolds(s: State)
    requires Init(s)
    ensures Inv(s)
  {
  }

  lemma MadeStays(s: State, t: State, c: nat, k: nat, i: nat)
    requires Made(s, c, k, i)
    requires s.server.log <= t.server.log && c < |t.calls|
    requires t.calls[c].bytes == s.calls[c].bytes && t.calls[c].want == s.calls[c].want
    requires k < |t.calls[c].attempts| && t.calls[c].attempts[k] == s.calls[c].attempts[k]
    ensures Made(t, c, k, i)
  {
    assert t.server.log[i] == s.server.log[i];
  }

  /** What a step may change of the calls: none is dropped or altered, only attempts in flight resolve
      and replies are filled in. */
  ghost predicate CallsGrow(s: State, t: State) {
    && |s.calls| <= |t.calls| && s.server.log <= t.server.log
    && forall c :: 0 <= c < |s.calls| ==> CallGrows(s.calls[c], t.calls[c])
  }

  ghost predicate CallGrows(a: Call, b: Call) {
    && b.bytes == a.bytes && b.want == a.want && |a.attempts| <= |b.attempts|
    && forall k :: 0 <= k < |a.attempts| && a.attempts[k] != InFlight ==> b.attempts[k] == a.attempts[k]
  }

  lemma EveryStepGrows(s: State, e: Event, t: State)
    requires Happens(s, e, t)
    ensures CallsGrow(s, t)
  {
  }

  lemma OldVersionsRecorded(s: State, t: State, i: nat)
    requires Recorded(s) && CallsGrow(s, t) && i < |s.server.log| && s.server.log[i].writer.By?
    ensures Made(t, s.server.log[i].writer.call, s.server.log[i].writer.attempt, i)
  {
    var c, k := s.server.log[i].writer.call, s.server.log[i].writer.attempt;
    assert Made(s, c, k, i);
    assert CallGrows(s.calls[c], t.calls[c]);
    MadeStays(s, t, c, k, i);
  }

  lemma OldLandingsRecorded(s: State, t: State, c: nat, k: nat)
    requires Recorded(s) && CallsGrow(s, t) && c < |s.calls| && k < |s.calls[c].attempts|
    requires s.calls[c].attempts[k].Landed?
    ensures exists i: nat :: Made(t, c, k, i)
  {
    var i: nat :| Made(s, c, k, i);
    assert CallGrows(s.calls[c], t.calls[c]);
    MadeStays(s, t, c, k, i);
  }

  /** A step that stores no new conditional version. */
  lemma QuietStepRecorded(s: State, t: State)
    requires Recorded(s) && CallsGrow(s, t)
    requires forall i :: |s.server.log| <= i < |t.server.log| ==> t.server.log[i].writer == Plain
    requires forall c, k :: 0 <= c < |t.calls| && 0 <= k < |t.calls[c].attempts| && t.calls[c].attempts[k].Landed? ==>
               c < |s.calls| && k < |s.calls[c].attempts| && s.calls[c].attempts[k].Landed?
    ensures Recorded(t)
  {
    forall i | 0 <= i < |t.server.log| && t.server.log[i].writer.By?
      ensures Made(t, t.server.log[i].writer.call, t.server.log[i].writer.attempt, i)
    {
      OldVersionsRecorded(s, t, i);
    }
    forall c, k | 0 <= c < |t.calls| && 0 <= k < |t.calls[c].attempts| && t.calls[c].attempts[k].Landed?
      ensures exists i: nat :: Made(t, c, k, i)
    {
      OldLandingsRecorded(s, t, c, k);
    }
  }

  lemma LandingRecorded(s: State, t: State, c: nat, k: nat)
    requires Recorded(s) && Arrive(s, t, c, k) && s.calls[c].want == s.server.current
    ensures Recorded(t)
  {
    EveryStepGrows(s, Arrives(c, k), t);
    var landed := |s.server.log|;
    assert Made(t, c, k, landed);
    forall i | 0 <= i < |t.server.log| && t.server.log[i].writer.By?
      ensures Made(t, t.server.log[i].writer.call, t.server.log[i].writer.attempt, i)
    {
      if i < landed {
        OldVersionsRecorded(s, t, i);
      }
    }
    forall d, m | 0 <= d < |t.calls| && 0 <= m < |t.calls[d].attempts| && t.calls[d].attempts[m].Landed?
      ensures exists i: nat :: Made(t, d, m, i)
    {
      if d != c || m != k {
        OldLandingsRecorded(s, t, d, m);
      }
    }
  }

  lemma StepRecorded(s: State, e: Event, t: State)
    requires Recorded(s) && Happens(s, e, t)
    ensures Recorded(t)
  {
    EveryStepGrows(s, e, t);
    if e.Arrives? && s.calls[e.call].want == s.server.current {
      LandingRecorded(s, t, e.call, e.attempt);
    } else {
      QuietStepRecorded(s, t);
    }
  }

  lemma StepChained(s: State, e: Event, t: State)
    requires Chained(s.server) && Happens(s, e, t)
    ensures Chained(t.server)
  {
    match e
    case Arrives(c, k) => StoreKeepsChain(s.server, s.calls[c].bytes, By(c, k));
    case Puts(bytes) => StoreKeepsChain(s.server, bytes, Plain);
    case Starts(_, _) =>
    case Answers(_) =>
    case Loses(_, _) =>
    case Deletes =>
  }

  lemma StepReplied(s: State, e: Event, t: State, c: nat)
    requires (forall d :: 0 <= d < |s.calls| ==> Replied(s.calls[d])) && Happens(s, e, t) && c < |t.calls|
    ensures Replied(t.calls[c])
  {
  }

  lemma StepKeepsInv(s: State, e: Event, t: State)
    requires Inv(s) && Happens(s, e, t)
    ensures Inv(t)
  {
    StepChained(s, e, t);
    StepConsecutive(s, e, t);
    StepRecorded(s, e, t);
    forall c | 0 <= c < |t.calls|
      ensures Replied(t.calls[c])
    {
      StepReplied(s, e, t, c);
    }
  }

  lemma {:induction false} RunsKeepInv(states: seq<State>, events: seq<Event>, k: nat)
    requires IsRun(states, events) && k < |states|
    ensures Inv(states[k])
  {
    if k == 0 {
      InitHolds(states[0]);
    } else {
      RunsKeepInv(states, events, k - 1);
      assert Happens(states[k - 1], events[k - 1], states[k]);
      StepKeepsInv(states[k - 1], events[k - 1], states[k]);
    }
  }
}
