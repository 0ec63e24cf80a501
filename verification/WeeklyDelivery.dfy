/** The leased delivery of one week's report, page by page, with the lease timestamp as the fencing token. */
module WeeklyDeliveries {
  import opened Wrappers

  /** Ten minutes, in the microseconds of the clock. */
  const LEASE := 600_000_000

  /** The posted row, apart from its pages, whose number never changes. */
  datatype Row = Row(lease: Option<int>, nextPage: nat, sentAt: Option<int>)

  predicate Claimable(row: Row, now: int) { row.sentAt.None? && (row.lease.None? || row.lease.value <= now) }

  function Claimed(row: Row, now: int): Row { row.(lease := Some(now + LEASE)) }

  function Advanced(row: Row, next: nat, count: nat, now: int): Row {
    Row(Some(now + LEASE), next, if next == count then Some(now) else None)
  }

  /** The claim dictionary a bot keeps. */
  class Ticket {
    var leaseUntil: int
    const nextPage: nat

    constructor (leaseUntil: int, nextPage: nat)
      ensures this.leaseUntil == leaseUntil && this.nextPage == nextPage
    {
      this.leaseUntil, this.nextPage := leaseUntil, nextPage;
    }
  }

  class WeeklyDuelsDelivery {
    var leaseUntil: Option<int>
    var nextPage: nat
    var sentAt: Option<int>
    const pages: seq<string>

    constructor (pages: seq<string>)
      ensures St() == Row(None, 0, None) && this.pages == pages
    {
      this.pages := pages;
      leaseUntil, nextPage, sentAt := None, 0, None;
    }

    ghost function St(): Row
      reads this
    {
      Row(leaseUntil, nextPage, sentAt)
    }

    method Claim(now: int) returns (claim: Option<Ticket>)
      modifies this
      ensures claim.Some? <==> old(sentAt).None? && (old(leaseUntil).None? || old(leaseUntil).value <= now)
      ensures claim.Some? ==> fresh(claim.value) && claim.value.leaseUntil == now + 600_000_000
                              && claim.value.nextPage == nextPage == old(nextPage)
                              && leaseUntil == Some(now + 600_000_000) && sentAt == old(sentAt)
                              && St() == Claimed(old(St()), now)
      ensures claim.None? ==> St() == old(St())
    {
      if sentAt.Some? {
        return None;
      }
      if leaseUntil.Some? && leaseUntil.value > now {
        return None;
      }
      leaseUntil := Some(now + LEASE);
      var ticket := new Ticket(now + LEASE, nextPage);
      return Some(ticket);
    }

    /** Fails when the lease was lost. */
    method Advance(claim: Ticket, next: nat, now: int) returns (ok: bool)
      modifies this, claim
      ensures ok == (old(leaseUntil) == Some(old(claim.leaseUntil)))
      ensures ok ==> St() == Advanced(old(St()), next, |pages|, now)
      ensures ok ==> nextPage == next && leaseUntil == Some(claim.leaseUntil) == Some(now + 600_000_000)
                     && sentAt == if next == |pages| then Some(now) else None
      ensures !ok ==> St() == old(St()) && claim.leaseUntil == old(claim.leaseUntil)
    {
      var renewed := now + LEASE;
      if leaseUntil != Some(claim.leaseUntil) {
        return false;
      }
      nextPage, leaseUntil := next, Some(renewed);
      sentAt := if next == |pages| then Some(now) else None;
      claim.leaseUntil := renewed;
      return true;
    }

    method Release(claim: Ticket)
      modifies this
      ensures St() == old(St()).(lease := if old(leaseUntil) == Some(claim.leaseUntil) then None else old(leaseUntil))
    {
      if leaseUntil == Some(claim.leaseUntil) {
        leaseUntil := None;
      }
    }

    /**
     One turn of a bot that nobody disturbs: it claims at reading 0 of the clock, sends at
     most `good` pages before a send raises, and releases whatever happened.
     */
    method DeliverOnce(clock: nat -> int, good: nat) returns (sent: seq<string>)
      requires nextPage <= |pages|
      modifies this
      ensures Claimable(old(St()), clock(0)) ==>
                && nextPage == (if old(nextPage) + good < |pages| then old(nextPage) + good else |pages|)
                && sent == pages[old(nextPage)..nextPage] && leaseUntil.None?
                && (sentAt.Some? <==> old(nextPage) < nextPage == |pages|)
      ensures !Claimable(old(St()), clock(0)) ==> sent == [] && St() == old(St())
    {
      sent := [];
      var claim := Claim(clock(0));
      if claim.None? {
        return;
      }
      var ticket := claim.value;
      var index := ticket.nextPage;
      while index < |pages| && |sent| < good
        invariant ticket.nextPage == old(nextPage) <= index <= |pages|
        invariant sent == pages[old(nextPage)..index] && |sent| <= good
        invariant nextPage == index && leaseUntil == Some(ticket.leaseUntil)
        invariant sentAt.Some? <==> old(nextPage) < index == |pages|
        invariant fresh(ticket)
      {
        sent := sent + [pages[index]];
        var ok := Advance(ticket, index + 1, clock(index + 1));
        if !ok {
          assert false;
        }
        index := index + 1;
      }
      Release(ticket);
    }
  }

  // ---------------------------------------------------------------- any number of bots

  type Bot = nat

  datatype Phase = Ready | Delivered | Lost

  /** A bot with a claim: the page it is at, and whether it has sent that page. */
  datatype Holding = Holding(lease: int, index: nat, phase: Phase)

  /** `slack` bounds the age of a clock reading when its transaction commits. */
  datatype World = World(row: Row, count: nat, bots: map<Bot, Holding>, sent: seq<nat>, clock: int, slack: int)

  /**
   Each transaction uses a clock reading taken less than `slack` before it commits. A
   release may come after any exception; a crash drops the claim without releasing it.
   */
  datatype Act =
    | Tick(clock: int)
    | Claim(bot: Bot, read: int)
    | Send(bot: Bot)
    | Advance(bot: Bot, read: int)
    | Release(bot: Bot)
    | Crash(bot: Bot)

  predicate Holds(w: World, bot: Bot) { bot in w.bots && w.row.lease == Some(w.bots[bot].lease) }

  predicate Timely(w: World, read: int) { w.clock - w.slack < read <= w.clock }

  predicate Enabled(w: World, act: Act) {
    match act
    case Tick(clock) => clock >= w.clock
    case Claim(bot, read) => bot !in w.bots && Timely(w, read) && Claimable(w.row, read)
    case Send(bot) => bot in w.bots && w.bots[bot].phase == Ready && w.bots[bot].index < w.count
    case Advance(bot, read) => bot in w.bots && w.bots[bot].phase == Delivered && Timely(w, read)
    case Release(bot) => bot in w.bots
    case Crash(bot) => bot in w.bots
  }

  function Next(w: World, act: Act): World {
    if !Enabled(w, act) then w
    else match act
      case Tick(clock) => w.(clock := clock)
      case Claim(bot, read) =>
        w.(row := Claimed(w.row, read), bots := w.bots[bot := Holding(read + LEASE, w.row.nextPage, Ready)])
      case Send(bot) =>
        w.(bots := w.bots[bot := w.bots[bot].(phase := Delivered)], sent := w.sent + [w.bots[bot].index])
      case Advance(bot, read) =>
        var h := w.bots[bot];
        if !Holds(w, bot) then w.(bots := w.bots[bot := h.(phase := Lost)])
        else w.(row := Advanced(w.row, h.index + 1, w.count, read),
                bots := w.bots[bot := Holding(read + LEASE, h.index + 1, Ready)])
      case Release(bot) =>
        w.(row := if Holds(w, bot) then w.row.(lease := None) else w.row, bots := w.bots - {bot})
      case Crash(bot) => w.(bots := w.bots - {bot})
  }

  function Run(w: World, acts: seq<Act>): World
    decreases |acts|
  {
    if acts == [] then w else Run(Next(w, acts[0]), acts[1..])
  }

  function Posted(count: nat, clock: int, slack: int): World { World(Row(None, 0, None), count, map[], [], clock, slack) }

  // ---------------------------------------------------------------- the invariant

  ghost predicate RowOk(w: World) {
    && w.row.nextPage <= w.count
    && (w.row.sentAt.Some? <==> w.count > 0 && w.row.nextPage == w.count)
  }

  /** A claim is the stored lease, at the row's page, or has run out; it is never ahead of the row. */
  ghost predicate BotOk(w: World, bot: Bot)
    requires bot in w.bots
  {
    var h := w.bots[bot];
    && h.index <= w.row.nextPage
    && (if Holds(w, bot) then h.index == w.row.nextPage else h.lease <= w.clock)
    && (h.phase == Lost ==> !Holds(w, bot))
    && (h.phase == Delivered ==> h.index < w.count && h.index in w.sent)
  }

  ghost predicate OneHolder(w: World) {
    forall a, b :: Holds(w, a) && Holds(w, b) ==> a == b
  }

  ghost predicate SentInOrder(w: World) {
    && (forall page: nat :: page < w.row.nextPage ==> page in w.sent)
    && (forall k :: 0 <= k < |w.sent| ==> w.sent[k] < w.count && PagesBefore(w.sent, k))
  }

  /** Every page before the one sent at place `k` was sent earlier. */
  ghost predicate PagesBefore(sent: seq<nat>, k: nat)
    requires k < |sent|
  {
    forall page: nat :: page < sent[k] ==> page in sent[..k]
  }

  ghost predicate Inv(w: World) {
    RowOk(w) && (forall bot :: bot in w.bots ==> BotOk(w, bot)) && OneHolder(w) && SentInOrder(w) && w.slack <= LEASE
  }

  lemma ClaimKeeps(w: World, bot: Bot, read: int)
    requires Inv(w) && Enabled(w, Claim(bot, read))
    ensures Inv(Next(w, Claim(bot, read)))
  {
    var w' := Next(w, Claim(bot, read));
    forall other | other in w'.bots && other != bot
      ensures BotOk(w', other) && !Holds(w', other)
    {
      assert BotOk(w, other);
    }
  }

  lemma SendKeeps(w: World, bot: Bot)
    requires Inv(w) && Enabled(w, Send(bot))
    ensures Inv(Next(w, Send(bot)))
  {
    var w' := Next(w, Send(bot));
    forall other | other in w'.bots
      ensures BotOk(w', other) && (Holds(w', other) <==> Holds(w, other))
    {
      assert BotOk(w, other);
    }
    assert w'.sent[|w.sent|] == w.bots[bot].index;
    assert BotOk(w, bot);
    forall k | 0 <= k < |w'.sent|
      ensures w'.sent[k] < w.count && PagesBefore(w'.sent, k)
    {
      if k < |w.sent| {
        assert PagesBefore(w.sent, k);
        assert w'.sent[..k] == w.sent[..k];
      } else {
        assert w'.sent[..k] == w.sent;
      }
    }
  }

  lemma AdvanceKeeps(w: World, bot: Bot, read: int)
    requires Inv(w) && Enabled(w, Advance(bot, read))
    ensures Inv(Next(w, Advance(bot, read)))
  {
    var w' := Next(w, Advance(bot, read));
    assert BotOk(w, bot);
    forall other | other in w'.bots && other != bot
      ensures BotOk(w', other) && (Holds(w, bot) ==> !Holds(w', other))
    {
      assert BotOk(w, other);
    }
  }

  lemma ReleaseKeeps(w: World, bot: Bot, act: Act)
    requires Inv(w) && bot in w.bots && (act == Release(bot) || act == Crash(bot))
    ensures Inv(Next(w, act))
  {
    var w' := Next(w, act);
    forall other | other in w'.bots
      ensures BotOk(w', other)
    {
      assert BotOk(w, other);
    }
  }

  lemma StepKeeps(w: World, act: Act)
    requires Inv(w)
    ensures Inv(Next(w, act))
  {
    if Enabled(w, act) {
      match act
      case Tick(clock) =>
        forall bot | bot in w.bots
          ensures BotOk(Next(w, act), bot)
        {
          assert BotOk(w, bot);
        }
      case Claim(bot, read) => ClaimKeeps(w, bot, read);
      case Send(bot) => SendKeeps(w, bot);
      case Advance(bot, read) => AdvanceKeeps(w, bot, read);
      case Release(bot) => ReleaseKeeps(w, bot, act);
      case Crash(bot) => ReleaseKeeps(w, bot, act);
    }
  }

  lemma {:induction false} RunKeeps(w: World, acts: seq<Act>)
    requires Inv(w)
    ensures Inv(Run(w, acts)) && Run(w, acts).count == w.count
    decreases |acts|
  {
    if acts == [] {
    } else {
      StepKeeps(w, acts[0]);
      RunKeeps(Next(w, acts[0]), acts[1..]);
    }
  }

  // ---------------------------------------------------------------- what a delivery promises

  /** Every interleaving of concurrent and crashing bots, from a freshly posted report. */
  lemma DeliveredInOrder(count: nat, clock: int, slack: int, acts: seq<Act>)
    requires slack <= 600_000_000
    ensures var w := Run(Posted(count, clock, slack), acts);
            && (forall page: nat :: page < w.row.nextPage ==> page in w.sent)
            && (forall k, page: nat :: 0 <= k < |w.sent| && page < w.sent[k] ==> page in w.sent[..k])
            && (w.row.sentAt.Some? <==> count > 0 && w.row.nextPage == count)
            && (forall a, b :: Holds(w, a) && Holds(w, b) ==> a == b)
  {
    RunKeeps(Posted(count, clock, slack), acts);
    var w := Run(Posted(count, clock, slack), acts);
    forall k, page: nat | 0 <= k < |w.sent| && page < w.sent[k]
      ensures page in w.sent[..k]
    {
      assert PagesBefore(w.sent, k);
    }
  }

  /** A report without pages is never marked as sent. */
  lemma EmptyReportIsNeverSent(clock: int, slack: int, acts: seq<Act>)
    requires slack <= LEASE
    ensures Run(Posted(0, clock, slack), acts).row.sentAt.None?
  {
    RunKeeps(Posted(0, clock, slack), acts);
  }

  /** Progress is never undone, and only the holder of the stored lease makes any. */
  lemma OnlyTheHolderAdvances(w: World, act: Act)
    requires Inv(w)
    ensures w.row.nextPage <= Next(w, act).row.nextPage <= w.row.nextPage + 1
    ensures Next(w, act).row.nextPage != w.row.nextPage ==>
              act.Advance? && Holds(w, act.bot) && w.bots[act.bot].index == w.row.nextPage && w.row.nextPage in w.sent
    ensures w.row.sentAt.Some? ==> Next(w, act).row.sentAt.Some?
  {
    if Enabled(w, act) && act.Advance? {
      assert BotOk(w, act.bot);
    }
  }

  lemma {:induction false} NextPageNeverDecreases(w: World, acts: seq<Act>)
    requires Inv(w)
    ensures w.row.nextPage <= Run(w, acts).row.nextPage
    ensures w.row.sentAt.Some? ==> Run(w, acts).row.sentAt.Some?
    decreases |acts|
  {
    if acts == [] {
    } else {
      OnlyTheHolderAdvances(w, acts[0]);
      StepKeeps(w, acts[0]);
      NextPageNeverDecreases(Next(w, acts[0]), acts[1..]);
    }
  }

  /** The pages from `a` up to but not including `b`. */
  function PagesFrom(a: nat, b: nat): seq<nat>
    requires a <= b
  {
    seq(b - a, i requires 0 <= i < b - a => a + i)
  }

  /** A holder that nobody disturbs sends and stores the remaining pages one after the other. */
  lemma {:induction false} HolderFinishes(w: World, bot: Bot) returns (acts: seq<Act>)
    requires Inv(w) && w.slack > 0 && Holds(w, bot) && w.bots[bot].phase == Ready
    ensures var w' := Run(w, acts);
            w'.row.nextPage == w.count && w.row.nextPage <= w.count && w'.sent == w.sent + PagesFrom(w.row.nextPage, w.count)
    decreases w.count - w.row.nextPage
  {
    assert BotOk(w, bot);
    if w.row.nextPage == w.count {
      acts := [];
      assert PagesFrom(w.count, w.count) == [];
    } else {
      var w1 := Next(w, Send(bot));
      StepKeeps(w, Send(bot));
      var w2 := Next(w1, Advance(bot, w.clock));
      StepKeeps(w1, Advance(bot, w.clock));
      var rest := HolderFinishes(w2, bot);
      acts := [Send(bot), Advance(bot, w.clock)] + rest;
      assert acts[1..][1..] == rest && acts[1..][0] == Advance(bot, w.clock);
      assert PagesFrom(w.row.nextPage, w.count) == [w.row.nextPage] + PagesFrom(w2.row.nextPage, w.count);
    }
  }

  /**
   No delivery is ever stuck: from every state that claims, crashes and stale bots can lead
   to, once the stored lease has run out a newcomer can finish it, by sending each page from
   the stored one on, in order and once.
   */
  lemma NeverStuck(w: World, newcomer: Bot) returns (acts: seq<Act>)
    requires Inv(w) && w.slack > 0 && w.count > 0 && newcomer !in w.bots
    ensures var w' := Run(w, acts);
            && w'.row.sentAt.Some? && w.row.nextPage <= w.count
            && w'.sent == w.sent + PagesFrom(w.row.nextPage, w.count)
  {
    if w.row.sentAt.Some? {
      acts := [];
      assert PagesFrom(w.count, w.count) == [];
    } else {
      var later := if w.row.lease.Some? && w.row.lease.value > w.clock then w.row.lease.value else w.clock;
      StepKeeps(w, Tick(later));
      var w1 := Next(w, Tick(later));
      StepKeeps(w1, Claim(newcomer, later));
      var w2 := Next(w1, Claim(newcomer, later));
      var rest := HolderFinishes(w2, newcomer);
      acts := [Tick(later), Claim(newcomer, later)] + rest;
      assert acts[1..][1..] == rest && acts[1..][0] == Claim(newcomer, later);
      RunKeeps(w, acts);
    }
  }

  predicate Leaves(act: Act, bot: Bot) { (act.Release? || act.Crash?) && act.bot == bot }

  /** The bot keeps this claim all along. */
  predicate KeepsClaim(acts: seq<Act>, bot: Bot) {
    forall i :: 0 <= i < |acts| ==> !Leaves(acts[i], bot)
  }

  /** A claim that has lost its lease never gets it back: the token it holds is never stored again. */
  lemma {:induction false} StaleStaysStale(w: World, acts: seq<Act>, bot: Bot)
    requires Inv(w) && bot in w.bots && !Holds(w, bot) && KeepsClaim(acts, bot)
    ensures bot in Run(w, acts).bots && !Holds(Run(w, acts), bot) && Run(w, acts).bots[bot].lease == w.bots[bot].lease
    decreases |acts|
  {
    if acts == [] {
    } else {
      assert BotOk(w, bot);
      StepKeeps(w, acts[0]);
      assert !Leaves(acts[0], bot);
      StaleStaysStale(Next(w, acts[0]), acts[1..], bot);
    }
  }

  /** So a stale advance or release leaves the row alone, whatever happened in between. */
  lemma StaleChangesNothing(w: World, acts: seq<Act>, bot: Bot, act: Act)
    requires Inv(w) && bot in w.bots && !Holds(w, bot) && KeepsClaim(acts, bot)
    requires act.Release? || act.Advance?
    requires act.bot == bot
    ensures Next(Run(w, acts), act).row == Run(w, acts).row
  {
    StaleStaysStale(w, acts, bot);
  }

  /**
   Readings must be younger than the lease is long. If they may be any older, three bots
   suffice: 0's lease runs out, 1 takes over and releases, and then 2, which read the clock
   when 0 did, stores the token that 0 still holds. Both now hold the lease.
   */
  lemma LateReadingRevivesAToken(count: nat, slack: int)
    requires slack > LEASE
    ensures var acts := [Claim(0, 0), Tick(LEASE), Claim(1, LEASE), Release(1), Claim(2, 0)];
            var w := Run(Posted(count, 0, slack), acts);
            Holds(w, 0) && Holds(w, 2) && !Holds(Run(Posted(count, 0, slack), acts[..4]), 0)
  {
    var acts := [Claim(0, 0), Tick(LEASE), Claim(1, LEASE), Release(1), Claim(2, 0)];
    var w0 := Posted(count, 0, slack);
    var w1 := Next(w0, acts[0]);
    var w2 := Next(w1, acts[1]);
    var w3 := Next(w2, acts[2]);
    var w4 := Next(w3, acts[3]);
    RunFive(w0, acts);
    assert w4.row.lease.None? && w4.bots[0].lease == LEASE;
  }

  lemma RunFive(w: World, acts: seq<Act>)
    requires |acts| == 5
    ensures var w4 := Next(Next(Next(Next(w, acts[0]), acts[1]), acts[2]), acts[3]);
            Run(w, acts[..4]) == w4 && Run(w, acts) == Next(w4, acts[4])
  {
    RunOneMore(w, [], acts[0]);
    RunOneMore(w, [acts[0]], acts[1]);
    RunOneMore(w, acts[..2], acts[2]);
    RunOneMore(w, acts[..3], acts[3]);
    RunOneMore(w, acts[..4], acts[4]);
    assert [] + [acts[0]] == [acts[0]] && [acts[0]] + [acts[1]] == acts[..2];
    assert acts[..2] + [acts[2]] == acts[..3] && acts[..3] + [acts[3]] == acts[..4] && acts[..4] + [acts[4]] == acts;
  }

  lemma {:induction false} RunOneMore(w: World, acts: seq<Act>, act: Act)
    ensures Run(w, acts + [act]) == Next(Run(w, acts), act)
    decreases |acts|
  {
    if acts == [] {
      assert [] + [act] == [act] && [act][1..] == [];
    } else {
      assert (acts + [act])[1..] == acts[1..] + [act];
      RunOneMore(Next(w, acts[0]), acts[1..], act);
    }
  }
}
