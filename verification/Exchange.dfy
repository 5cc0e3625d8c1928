/** The recover exchange over two pipes of any capacity, zero included: who is blocked on what.
    The server writes its header, reads the client's, writes its whole catchup, then reads the
    client's (internal/etservertest/server.go:162-205). The client writes and reads in the same
    order, either with a reader beside its writer (internal/etcp/recover.go:65-103) or one after
    the other, as upstream does. */
module Exchange {

  /** The lengths of the four messages, the capacities of the pipes, and the kind of client. */
  datatype Setup = Setup(
    cHead: nat, cCatchup: nat, sHead: nat, sCatchup: nat,
    toServer: nat, toClient: nat, concurrent: bool)

  /** Bytes the client wrote, the server read, the server wrote, the client read. */
  datatype State = State(cw: nat, sr: nat, sw: nat, cr: nat)

  const START := State(0, 0, 0, 0)

  predicate ClientWrites(u: Setup, s: State)
  {
    s.cw < u.cHead || (s.cw < u.cHead + u.cCatchup && s.cr >= u.sHead)
  }

  predicate ClientReads(u: Setup, s: State)
  {
    if u.concurrent then s.cr < u.sHead + u.sCatchup
    else (s.cr < u.sHead && s.cw >= u.cHead) || (s.cr < u.sHead + u.sCatchup && s.cw >= u.cHead + u.cCatchup)
  }

  predicate ServerWrites(u: Setup, s: State)
  {
    s.sw < u.sHead || (s.sr >= u.cHead && s.sw < u.sHead + u.sCatchup)
  }

  predicate ServerReads(u: Setup, s: State)
  {
    s.sw >= u.sHead && (s.sr < u.cHead || (s.sw >= u.sHead + u.sCatchup && s.sr < u.cHead + u.cCatchup))
  }

  /** One byte into a pipe with room, out of a pipe that holds one, or straight across. */
  datatype Step = PutC | GetS | HandC | PutS | GetC | HandS

  predicate Enabled(u: Setup, s: State, step: Step)
  {
    match step
    case PutC => ClientWrites(u, s) && s.cw - s.sr < u.toServer
    case GetS => ServerReads(u, s) && s.sr < s.cw
    case HandC => ClientWrites(u, s) && ServerReads(u, s) && s.cw == s.sr
    case PutS => ServerWrites(u, s) && s.sw - s.cr < u.toClient
    case GetC => ClientReads(u, s) && s.cr < s.sw
    case HandS => ServerWrites(u, s) && ClientReads(u, s) && s.sw == s.cr
  }

  function Apply(s: State, step: Step): State
  {
    match step
    case PutC => s.(cw := s.cw + 1)
    case GetS => s.(sr := s.sr + 1)
    case HandC => s.(cw := s.cw + 1, sr := s.sr + 1)
    case PutS => s.(sw := s.sw + 1)
    case GetC => s.(cr := s.cr + 1)
    case HandS => s.(sw := s.sw + 1, cr := s.cr + 1)
  }

  predicate Valid(u: Setup, s: State)
  {
    && s.sr <= s.cw <= u.cHead + u.cCatchup && s.cr <= s.sw <= u.sHead + u.sCatchup
    && s.cw <= s.sr + u.toServer && s.sw <= s.cr + u.toClient
    && (s.cw > u.cHead ==> s.cr >= u.sHead)
    && (s.sw > u.sHead ==> s.sr >= u.cHead)
    && (s.sr > 0 ==> s.sw >= u.sHead)
    && (s.sr > u.cHead ==> s.sw == u.sHead + u.sCatchup)
    && (!u.concurrent && s.cr > 0 ==> s.cw >= u.cHead)
    && (!u.concurrent && s.cr > u.sHead ==> s.cw == u.cHead + u.cCatchup)
  }

  predicate Done(u: Setup, s: State)
  {
    s.cw == s.sr == u.cHead + u.cCatchup && s.sw == s.cr == u.sHead + u.sCatchup
  }

  /** Bytes still to be written or read. */
  function Remaining(u: Setup, s: State): nat
    requires Valid(u, s)
  {
    2 * (u.cHead + u.cCatchup + u.sHead + u.sCatchup) - s.cw - s.sr - s.sw - s.cr
  }

  /** Finished is when no byte is left to move. */
  lemma DoneMeansDone(u: Setup, s: State)
    requires Valid(u, s)
    ensures Done(u, s) <==> Remaining(u, s) == 0
  {
  }

  lemma StepKeepsValid(u: Setup, s: State, step: Step)
    requires Valid(u, s) && Enabled(u, s, step)
    ensures Valid(u, Apply(s, step)) && Remaining(u, Apply(s, step)) < Remaining(u, s)
  {
  }

  ghost predicate Stuck(u: Setup, s: State) { !Done(u, s) && forall step :: !Enabled(u, s, step) }

  /** With the concurrent reader no unfinished state is stuck: some byte can always move. */
  lemma ConcurrentNeverStuck(u: Setup, s: State)
    requires Valid(u, s) && u.concurrent
    ensures !Stuck(u, s)
  {
    if !Done(u, s) {
      if s.sw < u.sHead || (s.sr >= u.cHead && s.sw < u.sHead + u.sCatchup) {
        assert Enabled(u, s, HandS) || Enabled(u, s, GetC);
      } else if s.cr < s.sw {
        assert Enabled(u, s, GetC);
      } else if s.sr < s.cw {
        assert Enabled(u, s, GetS);
      } else {
        assert Enabled(u, s, HandC);
      }
    }
  }

  /** What a one-after-the-other client gets stuck on: both sides writing into full pipes. */
  predicate BothExceed(u: Setup)
  {
    || (u.cHead > u.toServer && u.sHead > u.toClient)
    || (u.cCatchup > u.toServer && u.sCatchup > u.toClient)
  }

  lemma SequentialStuckNeedsBoth(u: Setup, s: State)
    requires Valid(u, s) && !u.concurrent && Stuck(u, s)
    ensures BothExceed(u)
  {
    assert !Enabled(u, s, PutC) && !Enabled(u, s, GetS) && !Enabled(u, s, HandC);
    assert !Enabled(u, s, PutS) && !Enabled(u, s, GetC) && !Enabled(u, s, HandS);
  }

  // ---------------------------------------------------------------- runs

  ghost predicate Reaches(u: Setup, s: State, t: State, n: nat)
    decreases n
  {
    if n == 0 then s == t
    else exists step :: Enabled(u, s, step) && Reaches(u, Apply(s, step), t, n - 1)
  }

  ghost predicate Reachable(u: Setup, t: State) { exists n :: Reaches(u, START, t, n) }

  lemma {:induction false} ReachesValid(u: Setup, s: State, t: State, n: nat)
    requires Valid(u, s) && Reaches(u, s, t, n)
    ensures Valid(u, t)
    decreases n
  {
    if n > 0 {
      var step :| Enabled(u, s, step) && Reaches(u, Apply(s, step), t, n - 1);
      StepKeepsValid(u, s, step);
      ReachesValid(u, Apply(s, step), t, n - 1);
    }
  }

  lemma {:induction false} ReachesStep(u: Setup, s: State, t: State, n: nat, step: Step)
    requires Reaches(u, s, t, n) && Enabled(u, t, step)
    ensures Reaches(u, s, Apply(t, step), n + 1)
    decreases n
  {
    if n == 0 {
      assert Reaches(u, Apply(s, step), Apply(t, step), 0);
    } else {
      var first :| Enabled(u, s, first) && Reaches(u, Apply(s, first), t, n - 1);
      ReachesStep(u, Apply(s, first), t, n - 1, step);
    }
  }

  lemma Onward(u: Setup, t: State, step: Step)
    requires Reachable(u, t) && Enabled(u, t, step)
    ensures Reachable(u, Apply(t, step))
  {
    var n :| Reaches(u, START, t, n);
    ReachesStep(u, START, t, n, step);
  }

  /** With the concurrent reader the exchange runs to its end from every reachable state, by
      whatever steps are taken: each is one of finitely many, and one is always there. */
  lemma {:induction false} ConcurrentFinishes(u: Setup, s: State) returns (end: State)
    requires u.concurrent && Valid(u, s) && Reachable(u, s)
    ensures Reachable(u, end) && Done(u, end)
    decreases Remaining(u, s)
  {
    if Done(u, s) {
      end := s;
    } else {
      ConcurrentNeverStuck(u, s);
      var step :| Enabled(u, s, step);
      StepKeepsValid(u, s, step);
      Onward(u, s, step);
      end := ConcurrentFinishes(u, Apply(s, step));
    }
  }

  /** Fill both pipes from a state where both sides write. */
  lemma {:induction false} FillPipes(u: Setup, s: State, c: nat, k: nat)
    requires Reachable(u, s) && s.cw - s.sr + c <= u.toServer && s.sw - s.cr + k <= u.toClient
    requires s.cw + c <= u.cHead || (s.cr >= u.sHead && s.cw + c <= u.cHead + u.cCatchup)
    requires s.sw + k <= u.sHead || (s.sr >= u.cHead && s.sw + k <= u.sHead + u.sCatchup)
    ensures Reachable(u, s.(cw := s.cw + c, sw := s.sw + k))
    decreases c + k
  {
    if c > 0 {
      Onward(u, s, PutC);
      FillPipes(u, Apply(s, PutC), c - 1, k);
    } else if k > 0 {
      Onward(u, s, PutS);
      FillPipes(u, Apply(s, PutS), 0, k - 1);
    }
  }

  /** Unless both headers exceed their pipes, both can be exchanged before any catchup byte. */
  lemma {:induction false} HeadersPass(u: Setup, s: State)
    requires !u.concurrent && Valid(u, s) && Reachable(u, s) && s.cw <= u.cHead && s.sw <= u.sHead
    requires !(u.cHead > u.toServer && u.sHead > u.toClient)
    ensures Reachable(u, State(u.cHead, u.cHead, u.sHead, u.sHead))
    decreases Remaining(u, s)
  {
    if s != State(u.cHead, u.cHead, u.sHead, u.sHead) {
      var step :=
        if s.cw < u.cHead && s.cw - s.sr < u.toServer then PutC
        else if s.sw < u.sHead && s.sw - s.cr < u.toClient then PutS
        else if s.cr < s.sw && s.cw == u.cHead then GetC
        else if s.sr < s.cw && s.sw == u.sHead then GetS
        else if s.sw < u.sHead then HandS else HandC;
      assert Enabled(u, s, step);
      StepKeepsValid(u, s, step);
      Onward(u, s, step);
      HeadersPass(u, Apply(s, step));
    }
  }

  /** Both headers too long: each side fills its pipe and waits. */
  lemma HeadersDeadlock(u: Setup)
    requires !u.concurrent && u.cHead > u.toServer && u.sHead > u.toClient
    ensures Reachable(u, State(u.toServer, 0, u.toClient, 0)) && Stuck(u, State(u.toServer, 0, u.toClient, 0))
  {
    assert Reaches(u, START, START, 0);
    FillPipes(u, START, u.toServer, u.toClient);
  }

  /** Both catchups too long: the headers pass, then each side fills its pipe and waits. */
  lemma CatchupsDeadlock(u: Setup)
    requires !u.concurrent && u.cCatchup > u.toServer && u.sCatchup > u.toClient
    requires !(u.cHead > u.toServer && u.sHead > u.toClient)
    ensures var s := State(u.cHead + u.toServer, u.cHead, u.sHead + u.toClient, u.sHead);
            Reachable(u, s) && Stuck(u, s)
  {
    assert Reaches(u, START, START, 0);
    HeadersPass(u, START);
    FillPipes(u, State(u.cHead, u.cHead, u.sHead, u.sHead), u.toServer, u.toClient);
  }

  /** Exactly when the exchange can deadlock: never with the concurrent reader; done in
      sequence, as soon as both headers, or both catchups, exceed what the pipes hold. */
  lemma DeadlockExactly(u: Setup)
    ensures (exists s :: Reachable(u, s) && Stuck(u, s)) <==> !u.concurrent && BothExceed(u)
  {
    hide Reaches, Stuck;
    if s :| Reachable(u, s) && Stuck(u, s) {
      var n :| Reaches(u, START, s, n);
      ReachesValid(u, START, s, n);
      if u.concurrent { ConcurrentNeverStuck(u, s); } else { SequentialStuckNeedsBoth(u, s); }
    }
    if !u.concurrent && BothExceed(u) {
      if u.cHead > u.toServer && u.sHead > u.toClient { HeadersDeadlock(u); } else { CatchupsDeadlock(u); }
    }
  }
}
