/** Admission and cancellation of the legacy vacuum in internal/app/app.go: any
number of vehicle-state handlers and the maintenance pass share a mutex, a ready
flag and the cancel token of the running vacuum.

Every shared access is one step; steps of the threads interleave freely. */
module Vacuum {
  import opened Prelude

  type Token = nat

  // A vehicle-state handler: called, then inside the lock, then about to cancel.
  datatype Handler =
    | Idle
    | Called(ready: bool)
    | Locked(ready: bool)
    | Flagged(ready: bool)
    | Taken(ready: bool, token: Option<Token>)
    | Holding(ready: bool, token: Option<Token>)

  // The maintenance pass, with the token of the vacuum it wants to run.
  datatype Pass =
    | Resting
    | Asking(k: Token)
    | Checking(k: Token)
    | Admitted(k: Token)
    | Registered(k: Token)
    | Running(k: Token)
    | Done(k: Token)
    | Closing(k: Token)
    | Leaving(k: Token)
    | Releasing(k: Token)

  datatype Owner = Nobody | ByHandler(h: nat) | ByPass

  // `met` are the tokens that a handler turning ready found registered.
  datatype State = State(
    owner: Owner, ready: bool, registered: Option<Token>, cancelled: set<Token>, met: set<Token>, next: Token,
    handlers: map<nat, Handler>, pass: Pass)

  datatype Action = Call(h: nat, ready: bool) | Handle(h: nat) | Maintain

  function Start(ready: bool): State { State(Nobody, ready, None, {}, {}, 0, map[], Resting) }

  function HandlerOf(s: State, h: nat): Handler { if h in s.handlers then s.handlers[h] else Idle }

  function To(s: State, h: nat, pc: Handler): State { s.(handlers := s.handlers[h := pc]) }

  function HandlerStep(s: State, h: nat): State {
    match HandlerOf(s, h)
    case Idle => s
    case Called(r) => if s.owner == Nobody then To(s, h, Locked(r)).(owner := ByHandler(h)) else s
    case Locked(r) => To(s, h, Flagged(r)).(ready := r)
    case Flagged(r) =>
      To(s, h, Taken(r, s.registered)).(met := if r && s.registered.Some? then s.met + {s.registered.value} else s.met)
    case Taken(r, token) => To(s, h, Holding(r, token)).(owner := Nobody)
    case Holding(r, token) =>
      To(s, h, Idle).(cancelled := if r && token.Some? then s.cancelled + {token.value} else s.cancelled)
  }

  function PassStep(s: State): State {
    match s.pass
    case Resting => s.(pass := Asking(s.next), next := s.next + 1)
    case Asking(k) => if s.owner == Nobody then s.(pass := Checking(k), owner := ByPass) else s
    case Checking(k) => s.(pass := if s.ready then Leaving(k) else Admitted(k))
    case Admitted(k) => s.(pass := Registered(k), registered := Some(k))
    case Registered(k) => s.(pass := Running(k), owner := Nobody)
    case Running(k) => s.(pass := Done(k))
    case Done(k) => if s.owner == Nobody then s.(pass := Closing(k), owner := ByPass) else s
    case Closing(k) => s.(pass := Leaving(k), registered := None)
    case Leaving(k) => s.(pass := Releasing(k), owner := Nobody)
    case Releasing(k) => s.(pass := Resting, cancelled := s.cancelled + {k})
  }

  function Step(s: State, a: Action): State {
    match a
    case Call(h, ready) => if HandlerOf(s, h) == Idle then To(s, h, Called(ready)) else s
    case Handle(h) => HandlerStep(s, h)
    case Maintain => PassStep(s)
  }

  function Run(s: State, actions: seq<Action>): State {
    if actions == [] then s else Step(Run(s, actions[..|actions| - 1]), actions[|actions| - 1])
  }

  // ----- the invariant -----

  predicate InLock(pc: Handler) { pc.Locked? || pc.Flagged? || pc.Taken? }

  predicate PassInLock(p: Pass) { p.Checking? || p.Admitted? || p.Registered? || p.Closing? || p.Leaving? }

  // The token is taken or in the handler's hands, to be cancelled.
  predicate WillCancel(pc: Handler, k: Token) {
    || pc == Flagged(true)
    || pc == Taken(true, Some(k))
    || pc == Holding(true, Some(k))
  }

  ghost predicate Exclusive(s: State) {
    && (forall h :: InLock(HandlerOf(s, h)) <==> s.owner == ByHandler(h))
    && (PassInLock(s.pass) <==> s.owner == ByPass)
  }

  predicate TokenRegistered(s: State) {
    && s.registered ==
         (if s.pass.Registered? || s.pass.Running? || s.pass.Done? || s.pass.Closing? then Some(s.pass.k) else None)
    && (s.pass.Admitted? || s.pass.Registered? ==> !s.ready)
  }

  ghost predicate Threatened(s: State, k: Token) { exists h :: WillCancel(HandlerOf(s, h), k) }

  // No vacuum runs unthreatened while the vehicle is ready.
  ghost predicate Guarded(s: State) {
    s.ready && s.pass.Running? && s.pass.k !in s.cancelled ==> Threatened(s, s.pass.k)
  }

  predicate TokenKnown(s: State, pc: Handler) {
    (pc.Taken? || pc.Holding?) && pc.token.Some? ==> pc.token.value < s.next && (pc.ready ==> pc.token.value in s.met)
  }

  predicate BeforeRunning(p: Pass) { p.Asking? || p.Checking? || p.Admitted? || p.Registered? }

  // Tokens are fresh, and a vacuum under way is cancelled only by a handler that
  // found it registered as the vehicle turned ready.
  ghost predicate Justified(s: State) {
    && (forall k :: k in s.cancelled || k in s.met ==> k < s.next)
    && (s.registered.Some? ==> s.registered.value < s.next)
    && (!s.pass.Resting? ==> s.pass.k < s.next)
    && (forall h :: TokenKnown(s, HandlerOf(s, h)))
    && (!s.pass.Resting? && s.pass.k in s.cancelled ==> s.pass.k in s.met)
    && (BeforeRunning(s.pass) ==> s.pass.k !in s.met)
  }

  ghost predicate Inv(s: State) { Exclusive(s) && TokenRegistered(s) && Guarded(s) && Justified(s) }

  lemma HandlerExclusive(s: State, h: nat)
    requires Exclusive(s)
    ensures Exclusive(HandlerStep(s, h))
  {
    var t := HandlerStep(s, h);
    forall g ensures InLock(HandlerOf(t, g)) <==> t.owner == ByHandler(g) {
      assert InLock(HandlerOf(s, g)) <==> s.owner == ByHandler(g);
      assert InLock(HandlerOf(s, h)) <==> s.owner == ByHandler(h);
    }
  }

  lemma HandlerGuards(s: State, h: nat)
    requires Inv(s)
    ensures Guarded(HandlerStep(s, h))
  {
    var t := HandlerStep(s, h);
    if t.ready && t.pass.Running? && t.pass.k !in t.cancelled {
      var k := t.pass.k;
      if HandlerOf(s, h) == Locked(true) {
        assert WillCancel(HandlerOf(t, h), k);
      } else {
        var g :| WillCancel(HandlerOf(s, g), k);
        assert WillCancel(HandlerOf(t, g), k);
      }
    }
  }

  lemma HandlerJustified(s: State, h: nat)
    requires Inv(s)
    ensures Justified(HandlerStep(s, h)) && TokenRegistered(HandlerStep(s, h))
  {
    var t := HandlerStep(s, h);
    assert InLock(HandlerOf(s, h)) <==> s.owner == ByHandler(h);
    assert TokenKnown(s, HandlerOf(s, h));
    forall g ensures TokenKnown(t, HandlerOf(t, g)) {
      assert TokenKnown(s, HandlerOf(s, g));
    }
  }

  lemma PassKeeps(s: State)
    requires Inv(s)
    ensures Inv(PassStep(s))
  {
    var t := PassStep(s);
    assert forall h :: HandlerOf(t, h) == HandlerOf(s, h);
  }

  lemma CallKeeps(s: State, h: nat, ready: bool)
    requires Inv(s)
    ensures Inv(Step(s, Call(h, ready)))
  {
    var t := Step(s, Call(h, ready));
    assert forall g :: g != h ==> HandlerOf(t, g) == HandlerOf(s, g);
    if t.ready && t.pass.Running? && t.pass.k !in t.cancelled {
      var g :| WillCancel(HandlerOf(s, g), t.pass.k);
      assert WillCancel(HandlerOf(t, g), t.pass.k);
    }
  }

  lemma {:induction false} RunKeeps(ready: bool, actions: seq<Action>)
    ensures Inv(Run(Start(ready), actions))
  {
    if actions != [] {
      var n := |actions| - 1;
      RunKeeps(ready, actions[..n]);
      var s := Run(Start(ready), actions[..n]);
      match actions[n]
      case Call(h, r) => CallKeeps(s, h, r);
      case Handle(h) =>
        HandlerExclusive(s, h);
        HandlerGuards(s, h);
        HandlerJustified(s, h);
      case Maintain => PassKeeps(s);
    }
  }

  // ----- what it means -----

  // However the threads interleave: while the vehicle is flagged ready, a vacuum
  // that runs uncancelled has a handler about to cancel it ...
  lemma ReadyCancels(ready: bool, actions: seq<Action>)
    ensures
      var s := Run(Start(ready), actions);
      s.ready && s.pass.Running? && s.pass.k !in s.cancelled ==> Threatened(s, s.pass.k)
  {
    RunKeeps(ready, actions);
  }

  // ... so once no handler is between setting the flag and cancelling, none does.
  lemma ReadyRunsNoVacuum(ready: bool, actions: seq<Action>)
    requires
      var s := Run(Start(ready), actions);
      && s.ready && s.pass.Running?
      && forall h :: HandlerOf(s, h).Idle? || HandlerOf(s, h).Called? || HandlerOf(s, h).Locked?
    ensures Run(Start(ready), actions).pass.k in Run(Start(ready), actions).cancelled
  {
    RunKeeps(ready, actions);
  }

  // A running vacuum is cancelled only because the vehicle turned ready during
  // it, never by a handler left over from an earlier one.
  lemma CancelledForReady(ready: bool, actions: seq<Action>)
    ensures
      var s := Run(Start(ready), actions);
      s.pass.Running? && s.pass.k in s.cancelled ==> s.pass.k in s.met
  {
    RunKeeps(ready, actions);
  }

  // ----- what gets done -----

  // The next n steps are the pass's own.
  function PassAlone(s: State, n: nat): State { if n == 0 then s else PassStep(PassAlone(s, n - 1)) }

  lemma {:induction false} PassAloneKeeps(s: State, n: nat)
    requires Inv(s)
    ensures Inv(PassAlone(s, n))
    ensures PassAlone(s, n).ready == s.ready && PassAlone(s, n).handlers == s.handlers
  {
    if n > 0 {
      PassAloneKeeps(s, n - 1);
      PassKeeps(PassAlone(s, n - 1));
    }
  }

  lemma {:induction false} PassAloneFrom(s: State, m: nat, n: nat)
    ensures PassAlone(PassAlone(s, m), n) == PassAlone(s, m + n)
  {
    if n > 0 {
      PassAloneFrom(s, m, n - 1);
    }
  }

  // The vacuum runs, registered and not cancelled, with the lock free for handlers.
  predicate RunsFreely(s: State) {
    && s.pass.Running? && s.registered == Some(s.pass.k) && s.pass.k !in s.cancelled && s.owner == Nobody
  }

  lemma PassSteps(s: State)
    ensures PassAlone(s, 1) == PassStep(s) && PassAlone(s, 2) == PassStep(PassStep(s))
    ensures PassAlone(s, 3) == PassStep(PassStep(PassStep(s)))
    ensures PassAlone(s, 4) == PassStep(PassStep(PassStep(PassStep(s))))
  {
    assert PassAlone(s, 0) == s;
    assert PassAlone(s, 1) == PassStep(PassAlone(s, 0));
    assert PassAlone(s, 2) == PassStep(PassAlone(s, 1));
    assert PassAlone(s, 3) == PassStep(PassAlone(s, 2));
    assert PassAlone(s, 4) == PassStep(PassAlone(s, 3));
  }

  // A pass that holds the lock is refused if and only if the vehicle is flagged ready;
  // otherwise its own next steps run the vacuum.
  lemma AdmittedExactly(ready: bool, actions: seq<Action>)
    requires Run(Start(ready), actions).pass.Checking?
    ensures
      var s := Run(Start(ready), actions);
      && (RunsFreely(PassAlone(s, 3)) <==> !s.ready)
      && (s.ready ==> PassAlone(s, 3) == s.(pass := Resting, owner := Nobody, cancelled := s.cancelled + {s.pass.k}))
  {
    RunKeeps(ready, actions);
    PassSteps(Run(Start(ready), actions));
  }

  // A vacuum that ends, cancelled or not, takes its token back and frees the lock.
  lemma EndsUnregistered(s: State)
    requires s.pass.Running? && s.owner == Nobody
    ensures PassAlone(s, 5) == s.(pass := Resting, registered := None, cancelled := s.cancelled + {s.pass.k})
  {
    var k := s.pass.k;
    assert PassAlone(s, 0) == s;
    assert PassAlone(s, 1) == s.(pass := Done(k));
    assert PassAlone(s, 2) == s.(pass := Closing(k), owner := ByPass);
    assert PassAlone(s, 3) == s.(pass := Leaving(k), owner := ByPass, registered := None);
    assert PassAlone(s, 4) == s.(pass := Releasing(k), registered := None);
  }

  // Steps from here to a vacuum that runs.
  function Left(p: Pass): nat {
    match p
    case Registered(_) => 1
    case Admitted(_) => 2
    case Checking(_) => 3
    case Asking(_) => 4
    case Resting => 5
    case Releasing(_) => 6
    case Leaving(_) => 7
    case Closing(_) => 8
    case Done(_) => 9
    case Running(_) => 10
  }

  lemma {:induction false} Reaches(s: State)
    requires Inv(s) && !s.ready && !s.owner.ByHandler? && !RunsFreely(s)
    ensures RunsFreely(PassAlone(s, Left(s.pass)))
    decreases Left(s.pass)
  {
    var t := PassStep(s);
    PassKeeps(s);
    PassAloneFrom(s, 1, Left(s.pass) - 1);
    assert PassAlone(s, 1) == t by { PassSteps(s); }
    if s.pass.Registered? {
      assert RunsFreely(t);
    } else {
      assert Left(t.pass) == Left(s.pass) - 1;
      Reaches(t);
    }
  }

  // No vacuum is kept waiting: whenever the flag is down and no handler holds the lock,
  // a vacuum runs uncancelled, or the pass's own next steps lead to one.
  lemma PassReachesRunning(ready: bool, actions: seq<Action>)
    requires
      var s := Run(Start(ready), actions);
      !s.ready && forall h :: !InLock(HandlerOf(s, h))
    ensures
      var s := Run(Start(ready), actions);
      RunsFreely(s) || RunsFreely(PassAlone(s, Left(s.pass)))
  {
    RunKeeps(ready, actions);
    var s := Run(Start(ready), actions);
    forall h ensures s.owner != ByHandler(h) {
      assert !InLock(HandlerOf(s, h));
    }
    if !RunsFreely(s) {
      Reaches(s);
    }
  }

  function HandlerAlone(s: State, h: nat, n: nat): State {
    if n == 0 then s else HandlerStep(HandlerAlone(s, h, n - 1), h)
  }

  // A handler that finds the lock free sets the flag to its own state and, turning
  // ready, cancels the vacuum it finds registered.
  lemma HandlerDoes(s: State, h: nat, r: bool)
    requires s.owner == Nobody && HandlerOf(s, h) == Called(r)
    ensures
      var t := HandlerAlone(s, h, 5);
      && HandlerOf(t, h) == Idle && t.ready == r && t.owner == Nobody
      && t.pass == s.pass && t.registered == s.registered
      && t.cancelled == s.cancelled + if r && s.registered.Some? then {s.registered.value} else {}
  {
    assert HandlerAlone(s, h, 0) == s;
    assert HandlerAlone(s, h, 1) == HandlerStep(HandlerAlone(s, h, 0), h);
    assert HandlerAlone(s, h, 2) == HandlerStep(HandlerAlone(s, h, 1), h);
    assert HandlerAlone(s, h, 3) == HandlerStep(HandlerAlone(s, h, 2), h);
    assert HandlerAlone(s, h, 4) == HandlerStep(HandlerAlone(s, h, 3), h);
  }
}
