/** When a person owns the thread, and for how long. */
module HoldTheorems {
  import opened Text
  import opened Conversation
  import opened Runs

  // ---- A person's thread --------------------------------------------------------------------

  /** Neither released by a colleague nor past the hold limit. */
  ghost predicate LeavesHold(s: Settings, c: Conv, e: Event) {
    match e
    case TurnEvent(t) => !HoldExpired(s, c.custody, t.now)
    case ReleaseEvent(noteGiven) => !noteGiven
    case _ => true
  }

  ghost predicate AllLeaveHold(s: Settings, w: World, events: seq<Event>) {
    events == [] ||
    (AllLeaveHold(s, w, events[..|events| - 1]) && LeavesHold(s, Run(s, w, events[..|events| - 1]).conv, events[|events| - 1]))
  }

  /** A turn on a held thread goes to escalation unless it is adversarial, sells nothing, and leaves the
      hold in place. */
  lemma HeldTurnEscalates(s: Settings, c: Conv, t: Turn)
    requires c.custody.held && c.custody.notified && !HoldExpired(s, c.custody, t.now)
    ensures var (after, log) := TurnTaken(s, c, t);
            && after.custody.held
            && (log.node == Some(Escalation) || (log.node == Some(Adversarial) && t.classified.Some?
                 && Settle(c.chat, t.classified.value) == Malicious))
            && log.shown.None? && !log.announced
  {
  }

  /** A hold, once on, survives every turn, tap, payment and decline until a colleague releases it with a
      note or the limit passes; and in all that time it is announced in full no second time. */
  lemma {:induction false} HoldLastsUntilReleased(s: Settings, w: World, events: seq<Event>)
    requires w.conv.custody.held && Inv(w) && AllLeaveHold(s, w, events)
    ensures var later := Run(s, w, events);
            && later.conv.custody.held && later.conv.custody.notified
            && later.past.announcements == w.past.announcements
            && Inv(later)
  {
    if events != [] {
      var init, last := events[..|events| - 1], events[|events| - 1];
      HoldLastsUntilReleased(s, w, init);
      var before := Run(s, w, init);
      StepKeepsInv(s, before, last);
      if last.TurnEvent? {
        HeldTurnEscalates(s, before.conv, last.turn);
      }
    }
  }

  /** A hold the limit has passed is let go by the next turn triage can place, and by no other. */
  lemma ExpiredHoldIsLetGo(s: Settings, c: Conv, t: Turn)
    requires HoldExpired(s, c.custody, t.now)
    ensures Triage(s, c, t).custody.held <==> Dispose(s, c, t).TriageFailed?
  {
  }

  /** What ends a hold: a release with a note, or a turn past the limit that triage can place and that does
      not itself go to a person. */
  ghost predicate EndsHold(s: Settings, c: Conv, e: Event) {
    match e
    case TurnEvent(t) =>
      HoldExpired(s, c.custody, t.now) && !Dispose(s, c, t).TriageFailed? && Route(Triage(s, c, t)) != Escalation
    case ReleaseEvent(noteGiven) => noteGiven
    case _ => false
  }

  /** On every run a person's thread goes back to the agent at exactly those events. */
  lemma {:induction false} HoldEndsExactly(s: Settings, events: seq<Event>, e: Event)
    requires Run(s, START, events).conv.custody.held
    ensures var c := Run(s, START, events).conv; !Step(s, c, e).0.custody.held <==> EndsHold(s, c, e)
  {
    EveryRunKeepsInv(s, events);
    var c := Run(s, START, events).conv;
    if e.TurnEvent? {
      TurnEndsHoldExactly(s, c, e.turn);
    }
  }

  lemma TurnEndsHoldExactly(s: Settings, c: Conv, t: Turn)
    requires c.custody.held && c.custody.notified
    ensures !TurnTaken(s, c, t).0.custody.held <==> EndsHold(s, c, TurnEvent(t))
  {
    if !HoldExpired(s, c.custody, t.now) {
      HeldTurnEscalates(s, c, t);
    } else {
      ExpiredHoldIsLetGo(s, c, t);
      if !Dispose(s, c, t).TriageFailed? {
        LetGoForNoFault(s, c, t);
      }
    }
  }

  /** A hold let go is never taken up again for a technical fault of the same triage. */
  lemma LetGoForNoFault(s: Settings, c: Conv, t: Turn)
    requires HoldExpired(s, c.custody, t.now) && !Dispose(s, c, t).TriageFailed?
    ensures Triage(s, c, t).custody.why != Some(Technical) && !Triage(s, c, t).custody.notified
  {
  }

  // ---- Asking for a person ------------------------------------------------------------------

  /** A calm request for a person: judged, not angry, not critical. */
  predicate CalmAsk(s: Settings, c: Conv, t: Turn) {
    && Dispose(s, c, t).Judged?
    && !t.classified.value.frustrated && t.classified.value.wantsHuman && Settle(c.chat, t.classified.value) != Human
  }

  /** Turns the count of requests does not see: a failed classification, and a return after two days. */
  predicate Unseen(s: Settings, c: Conv, t: Turn) {
    Dispose(s, c, t).TriageFailed? || Dispose(s, c, t).GhostRewarm?
  }

  /** The calm requests since the last turn that was something else. */
  ghost function CalmAsks(s: Settings, events: seq<Event>): nat {
    if events == [] then 0
    else
      var init, last := events[..|events| - 1], events[|events| - 1];
      Counted(s, Run(s, START, init).conv, last, CalmAsks(s, init))
  }

  /** A count of calm requests after one more event. */
  function Counted(s: Settings, c: Conv, e: Event, count: nat): nat {
    if !e.TurnEvent? || Unseen(s, c, e.turn) then count else if CalmAsk(s, c, e.turn) then count + 1 else 0
  }

  lemma TriageCounts(s: Settings, c: Conv, t: Turn)
    requires c.chat.humanAsks == 0 || c.chat.humanAsks == 1
    ensures
      var asks := Triage(s, c, t).chat.humanAsks;
      if Unseen(s, c, t) then asks == c.chat.humanAsks
      else if CalmAsk(s, c, t) then asks == 1 - c.chat.humanAsks
      else asks == 0
  {
  }

  lemma TurnKeepsCount(s: Settings, c: Conv, t: Turn)
    ensures TurnTaken(s, c, t).0.chat.humanAsks == Triage(s, c, t).chat.humanAsks
  {
  }

  lemma TurnCounts(s: Settings, c: Conv, t: Turn, count: nat)
    requires c.chat.humanAsks == count % 2
    ensures Triage(s, c, t).chat.humanAsks == Counted(s, c, TurnEvent(t), count) % 2
  {
    TriageCounts(s, c, t);
    assert (count + 1) % 2 == 1 - count % 2;
  }

  lemma StepCounts(s: Settings, c: Conv, e: Event, count: nat)
    requires c.chat.humanAsks == count % 2
    ensures Step(s, c, e).0.chat.humanAsks == Counted(s, c, e, count) % 2
  {
    match e
    case TurnEvent(t) =>
      TurnCounts(s, c, t, count);
      TurnKeepsCount(s, c, t);
    case _ =>
  }

  lemma {:induction false} CountIsParity(s: Settings, events: seq<Event>)
    ensures Run(s, START, events).conv.chat.humanAsks == CalmAsks(s, events) % 2
  {
    if events != [] {
      var init := events[..|events| - 1];
      CountIsParity(s, init);
      StepCounts(s, Run(s, START, init).conv, events[|events| - 1], CalmAsks(s, init));
    }
  }

  /** On every run: a calm request goes to a person exactly when it is the second, the fourth and so on
      since the last turn that was anything else, and is met with a question otherwise. Turns the count
      does not see may lie in between, so the two need not follow each other. */
  lemma {:induction false} SecondCalmAskEscalatesExactly(s: Settings, events: seq<Event>, t: Turn)
    requires CalmAsk(s, Run(s, START, events).conv, t)
    ensures
      var d := Triage(s, Run(s, START, events).conv, t);
      && (d.custody.needsHuman <==> CalmAsks(s, events) % 2 == 1)
      && d.chat.archetype == Some(if CalmAsks(s, events) % 2 == 1 then Human else Probe)
  {
    CountIsParity(s, events);
  }

  // ---- Declined payments --------------------------------------------------------------------

  /** The declines since the last payment, or the last release that ended a hold. */
  ghost function Declines(s: Settings, events: seq<Event>): nat {
    if events == [] then 0
    else
      var init, last := events[..|events| - 1], events[|events| - 1];
      match last
      case TurnEvent(_) => Declines(s, init)
      case PaidEvent(_) => 0
      case DeclinedEvent(_) => Declines(s, init) + 1
      case ReleaseEvent(noteGiven) =>
        if noteGiven && Run(s, START, init).conv.custody.held then 0 else Declines(s, init)
  }

  lemma {:induction false} DeclinesAreCounted(s: Settings, events: seq<Event>)
    ensures Run(s, START, events).conv.failures == Declines(s, events)
  {
    if events != [] {
      DeclinesAreCounted(s, events[..|events| - 1]);
    }
  }

  /** On every run: a decline gives the thread to a person exactly when it reaches the limit since the last
      payment or release, and leaves the thread with whoever has it otherwise. */
  lemma {:induction false} DeclinesEscalateExactlyAtTheLimit(s: Settings, events: seq<Event>, at: real)
    ensures
      var c := Run(s, START, events).conv;
      var after := Step(s, c, DeclinedEvent(at)).0;
      after.custody == if Declines(s, events) + 1 >= s.maxFailures
                       then Custody(true, true, true, Some(at), Some(PaymentTrouble)) else c.custody
  {
    DeclinesAreCounted(s, events);
  }
}
