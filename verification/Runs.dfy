/** What holds of every thread after every sequence of turns, taps, payments and releases. */
module Runs {
  import opened Text
  import opened Discounts
  import opened Orders
  import opened Walkthrough
  import opened Conversation

  // ---- A run and its history ----------------------------------------------------------------

  /** What has happened so far: confirm taps, links, links on a thread nobody held and with no name on
      file, the beats of the current sale, the order taps since an order was last stored or shown, and
      the full announcements of the current hold. */
  datatype Past = Past(
    confirmTaps: nat, mints: nat, namelessMints: nat, beats: seq<Beat>, openTaps: set<Tap>, announcements: nat)

  const NOTHING: Past := Past(0, 0, 0, [], {}, 0)

  function Screen(shown: Option<Beat>): seq<Beat> {
    if shown.Some? && shown.value != Hold then [shown.value] else []
  }

  function Remember(past: Past, after: Conv, log: Log): Past {
    Past(
      past.confirmTaps + (if log.confirmTap then 1 else 0),
      past.mints + (if log.minted then 1 else 0),
      past.namelessMints + (if log.minted && !log.mintedHeld && Trim(log.mintedName) == "" then 1 else 0),
      (if log.restarted then [] else past.beats) + Screen(log.shown),
      if log.shown.Some? then {} else past.openTaps + log.taps,
      if !after.custody.held then 0
      else (if log.holdExpired then 0 else past.announcements) + (if log.announced then 1 else 0))
  }

  datatype World = World(conv: Conv, past: Past)

  ghost function Next(s: Settings, w: World, e: Event): World {
    var after := Step(s, w.conv, e);
    World(after.0, Remember(w.past, after.0, after.1))
  }

  ghost function Run(s: Settings, w: World, events: seq<Event>): World {
    if events == [] then w else Next(s, Run(s, w, events[..|events| - 1]), events[|events| - 1])
  }

  const START: World := World(FRESH, NOTHING)

  // ---- The invariants -----------------------------------------------------------------------

  /** Every link was paid for by a confirm tap, and an open name question holds one tap in hand. */
  ghost predicate TapsCoverLinks(v: Sale, past: Past) {
    past.mints + (if v.awaitingDetails then 1 else 0) <= past.confirmTaps && past.namelessMints == 0
  }

  /** The cards and the question climb strictly, so each is shown at most once and in that order. */
  ghost predicate Climbing(beats: seq<Beat>) {
    forall i, j | 0 <= i < j < |beats| && beats[j] != Total :: StageAfter(beats[i]) < StageAfter(beats[j])
  }

  /** The stage is the furthest beat shown in the current sale, and nothing where none was. */
  ghost predicate Tracks(stage: nat, beats: seq<Beat>) {
    && stage <= 4
    && Climbing(beats) && Hold !in beats
    && (forall i | 0 <= i < |beats| :: StageAfter(beats[i]) <= stage)
    && (stage == 4 <==> Total in beats)
    && (stage > 0 ==> exists b :: b in beats && StageAfter(b) == stage)
  }

  /** The key stored beside the stage is the key of the order in state. */
  ghost predicate KeyMatches(v: Sale) {
    v.pending.Some? ==> v.saleKey == OrderKey(v.pending.value)
  }

  ghost predicate WalkedInOrder(v: Sale, past: Past) {
    KeyMatches(v) && Tracks(v.stage, past.beats)
  }

  /** Held and told are one thing, and a hold is announced in full at most once. */
  ghost predicate HoldAnnouncedOnce(u: Custody, past: Past) {
    u.held == u.notified && past.announcements <= 1 && (!u.held ==> past.announcements == 0)
  }

  ghost predicate Inv(w: World) {
    && TapsCoverLinks(w.conv.sale, w.past)
    && WalkedInOrder(w.conv.sale, w.past)
    && w.conv.sale.taps <= w.past.openTaps
    && HoldAnnouncedOnce(w.conv.custody, w.past)
  }

  // ---- One turn, group by group -------------------------------------------------------------

  lemma SoldAuthorises(p: Policy, v: Sale, specsUnavailable: bool, t: Turn)
    ensures var w := Sold(p, v, specsUnavailable, t).sale;
            && (w.awaitingDetails ==> v.awaitingDetails || v.confirmed)
            && (ConfirmHeld(w) ==> (v.awaitingDetails || v.confirmed) && Trim(w.name) != "")
  {
    match BranchOf(v, specsUnavailable, t.msg)
    case DetailsBranch =>
    case ConfirmBranch =>
    case TapBranch => TapAuthorisesNothing(p, v, t);
    case NoSpecsBranch =>
    case ModelBranch => ModelAuthorisesNothing(p, v, t);
  }

  lemma TapAuthorisesNothing(p: Policy, v: Sale, t: Turn)
    requires v.pending.Some? && v.taps != {}
    ensures var w := TapAnswered(p, v, t).sale;
            w.awaitingDetails == v.awaitingDetails && (ConfirmHeld(w) ==> ConfirmHeld(v))
  {
  }

  lemma ModelAuthorisesNothing(p: Policy, v: Sale, t: Turn)
    ensures var w := ModelAnswered(p, v, t).sale;
            w.awaitingDetails == v.awaitingDetails && (ConfirmHeld(w) ==> ConfirmHeld(v))
  {
  }

  lemma TurnKeepsTapsCoverLinks(s: Settings, w: World, t: Turn)
    requires TapsCoverLinks(w.conv.sale, w.past)
    ensures TapsCoverLinks(Next(s, w, TurnEvent(t)).conv.sale, Next(s, w, TurnEvent(t)).past)
  {
    var d := Triage(s, w.conv, t);
    var specs := Retrieved(d, t).specsUnavailable;
    SoldAuthorises(s.policy, d.sale, specs, t);
    if t.msg.confirm && !d.custody.held {
      assert Route(d).Sales?;
    }
  }

  lemma {:induction false} ClimbingAppends(beats: seq<Beat>, b: Beat, stage: nat)
    requires Climbing(beats)
    requires forall i | 0 <= i < |beats| :: StageAfter(beats[i]) <= stage
    requires b == Total || stage < StageAfter(b)
    ensures Climbing(beats + [b])
  {
    var all := beats + [b];
    forall i, j | 0 <= i < j < |all| && all[j] != Total
      ensures StageAfter(all[i]) < StageAfter(all[j])
    {
      if j < |beats| {
        assert all[i] == beats[i] && all[j] == beats[j];
      }
    }
  }

  /** A beat is due only when the stage has not passed it, and storing an order moves to it. */
  lemma NextBeatClimbs(p: Policy, order: Order, stage: nat)
    requires stage <= 4
    ensures var b := NextBeat(p, order, stage);
            b != Hold && (b == Total || stage < StageAfter(b)) && (b == Total ==> stage >= 3)
  {
  }

  lemma AdvanceTracks(v: Sale, order: Order, stage: nat, b: Beat, beats: seq<Beat>)
    requires Tracks(stage, beats)
    requires b == Hold || b == Total || stage < StageAfter(b)
    ensures var next := Advanced(v, order, stage, b);
            && Tracks(next.stage, beats + (if b == Hold then [] else [b]))
            && next.saleKey == OrderKey(order) && next.pending == Some(order) && next.taps == {}
  {
    if b == Hold {
      assert beats + [] == beats;
    } else {
      ClimbingAppends(beats, b, stage);
    }
  }

  /** What a selling node may do to the walkthrough. */
  ghost predicate Walks(v: Sale, said: Said, beats: seq<Beat>) {
    && KeyMatches(said.sale)
    && Tracks(said.sale.stage, (if said.restarted then [] else beats) + Screen(said.shown))
    && (if said.shown.Some? then said.sale.taps == {} else said.sale.taps <= v.taps)
  }

  lemma SilentWalks(v: Sale, w: Sale, beats: seq<Beat>)
    requires KeyMatches(w) && Tracks(w.stage, beats) && w.taps <= v.taps
    ensures Walks(v, Silent(w), beats)
  {
    assert beats + [] == beats;
  }

  lemma ShowWalks(p: Policy, v: Sale, order: Order, b: Beat, beats: seq<Beat>)
    requires Tracks(v.stage, beats) && (b == Total || b == NextBeat(p, order, v.stage))
    ensures Walks(v, Show(v, order, b), beats)
  {
    NextBeatClimbs(p, order, v.stage);
    AdvanceTracks(v, order, v.stage, b, beats);
  }

  lemma TapWalks(p: Policy, v: Sale, t: Turn, beats: seq<Beat>)
    requires v.pending.Some? && v.taps != {} && KeyMatches(v) && Tracks(v.stage, beats)
    ensures Walks(v, TapAnswered(p, v, t), beats)
  {
    var order := v.pending.value;
    if ApplyTap in v.taps {
      var repriced := Repriced(p, order);
      if repriced.None? {
        SilentWalks(v, v.(taps := v.taps - {ApplyTap}), beats);
      } else {
        ShowWalks(p, v, repriced.value, Total, beats);
      }
    } else if AddTap in v.taps {
      var added := Added(p, t.cat, t.lookupOk, order);
      if added.None? {
        assert OrderKey(WithoutComplement(order)) == OrderKey(order);
        SilentWalks(v, v.(taps := v.taps - {AddTap}, pending := Some(WithoutComplement(order))), beats);
      } else {
        ShowWalks(p, v, added.value, NextBeat(p, added.value, v.stage), beats);
      }
    } else if SwapTap in v.taps {
      var swapped := Swapped(p, t.cat, t.lookupOk, order);
      var next := if swapped.Some? then swapped.value else order.(stepUp := None);
      ShowWalks(p, v, next, NextBeat(p, next, v.stage), beats);
    } else if PassTap in v.taps {
      ShowWalks(p, v, order, NextBeat(p, order, v.stage), beats);
    } else {
      ShowWalks(p, v, order, Total, beats);
    }
  }

  /** Storing a model-built order at the beat it is due. */
  lemma ModelOrderWalks(p: Policy, v: Sale, order: Order, stage: nat, asked: bool, beats: seq<Beat>)
    requires Tracks(stage, beats)
    ensures
      var beat := ModelBeat(p, order, stage, asked);
      var next := Advanced(v, order, stage, beat);
      KeyMatches(next) && Tracks(next.stage, beats + Screen(Some(beat))) && next.taps == {}
  {
    NextBeatClimbs(p, order, stage);
    AdvanceTracks(v, order, stage, ModelBeat(p, order, stage, asked), beats);
  }

  lemma ModelWalks(p: Policy, v: Sale, t: Turn, beats: seq<Beat>)
    requires KeyMatches(v) && Tracks(v.stage, beats)
    ensures Walks(v, ModelAnswered(p, v, t), beats)
  {
    var order, said := ModelOrder(p, v, t), ModelAnswered(p, v, t);
    if order.None? {
      SilentWalks(v, said.sale, beats);
    } else {
      assert Tracks(0, []);
      var named := v.(name := if t.reply.value.name != "" then t.reply.value.name else v.name);
      ModelOrderWalks(p, named, order.value, if said.restarted then 0 else v.stage, t.reply.value.proposal.quoteRequested,
                      if said.restarted then [] else beats);
    }
  }

  lemma SoldWalks(p: Policy, v: Sale, specsUnavailable: bool, t: Turn, beats: seq<Beat>)
    requires KeyMatches(v) && Tracks(v.stage, beats)
    ensures Walks(v, Sold(p, v, specsUnavailable, t), beats)
  {
    match BranchOf(v, specsUnavailable, t.msg)
    case DetailsBranch => SilentWalks(v, DetailsAnswered(v, t.msg).value, beats);
    case ConfirmBranch => SilentWalks(v, v.(awaitingDetails := !NamedOnFile(v)), beats);
    case NoSpecsBranch => SilentWalks(v, v, beats);
    case TapBranch => TapWalks(p, v, t, beats);
    case ModelBranch => ModelWalks(p, v, t, beats);
  }

  lemma TurnKeepsWalkedInOrder(s: Settings, w: World, t: Turn)
    requires WalkedInOrder(w.conv.sale, w.past) && w.conv.sale.taps <= w.past.openTaps
    ensures var n := Next(s, w, TurnEvent(t));
            WalkedInOrder(n.conv.sale, n.past) && n.conv.sale.taps <= n.past.openTaps
  {
    var d := Triage(s, w.conv, t);
    var said := NodeSaid(s.policy, d, t);
    assert KeyMatches(d.sale);
    if Route(d).Sales? {
      SoldWalks(s.policy, d.sale, Retrieved(d, t).specsUnavailable, t, w.past.beats);
    } else {
      SilentWalks(d.sale, d.sale, w.past.beats);
    }
    GateKeepsWalk(s.policy, said.sale, t);
  }

  lemma GateKeepsWalk(p: Policy, v: Sale, t: Turn)
    ensures AfterGate(p, v, t).(linkSent := v.linkSent) == v
  {
  }

  lemma TurnKeepsHoldAnnouncedOnce(s: Settings, w: World, t: Turn)
    requires HoldAnnouncedOnce(w.conv.custody, w.past)
    ensures var n := Next(s, w, TurnEvent(t)); HoldAnnouncedOnce(n.conv.custody, n.past)
  {
    var d := Triage(s, w.conv, t);
    assert d.custody.held == d.custody.notified;
    assert d.custody.held <==> w.conv.custody.held && !Expires(s, w.conv, t);
  }

  /** Every invariant, of every event. */
  lemma StepKeepsInv(s: Settings, w: World, e: Event)
    requires Inv(w)
    ensures Inv(Next(s, w, e))
  {
    match e
    case TurnEvent(t) =>
      TurnKeepsTapsCoverLinks(s, w, t);
      TurnKeepsWalkedInOrder(s, w, t);
      TurnKeepsHoldAnnouncedOnce(s, w, t);
    case PaidEvent(_) => assert w.past.beats + [] == w.past.beats;
    case DeclinedEvent(_) => assert w.past.beats + [] == w.past.beats;
    case ReleaseEvent(_) => assert w.past.beats + [] == w.past.beats;
  }

  /** On every run: no more links than confirm taps, no link without a name except on a held thread, the
      stored key is the stored order's, the cards in order and once each per sale, every standing request
      really tapped, and at most one full announcement a hold. */
  lemma {:induction false} EveryRunKeepsInv(s: Settings, events: seq<Event>)
    ensures Inv(Run(s, START, events))
  {
    if events != [] {
      EveryRunKeepsInv(s, events[..|events| - 1]);
      StepKeepsInv(s, Run(s, START, events[..|events| - 1]), events[|events| - 1]);
    }
  }
}
