/**
 The local rate limiter and its four windows (crates/exchange/src/limits.rs). Instants and durations
 are in nanoseconds; counters are 32-bit, and their wrap-around, saturation and truncation are
 written out.
 */
module Limits {
  import opened Base

  const SECOND: nat := 1_000_000_000
  const DEFAULT_HEADROOM_PERMILLE: nat := 50

  datatype Counted = Counted(limit: nat, span: nat, used: nat, started: int)

  function Since(now: int, mark: int): nat {
    if now >= mark then now - mark else 0
  }

  function Rolled(w: Counted, now: int): Counted {
    if Since(now, w.started) >= w.span then
      var spans := Since(now, w.started) / (if w.span == 0 then 1 else w.span);
      w.(started := w.started + w.span * (spans % U32), used := 0)
    else w
  }

  function WaitFor(w: Counted, cost: nat, now: int): nat {
    if (w.used + cost) % U32 <= w.limit then 0 else Since(w.started + w.span, now)
  }

  function Charged(w: Counted, cost: nat): Counted {
    w.(used := Min(w.used + cost, U32 - 1))
  }

  class Window {
    const limit: nat
    const span: nat
    var used: nat
    var started: int

    function View(): Counted
      reads this
    {
      Counted(limit, span, used, started)
    }

    constructor (limit: nat, span: nat, now: int)
      ensures View() == Counted(limit, span, 0, now)
    {
      this.limit, this.span, used, started := limit, span, 0, now;
    }

    method Roll(now: int)
      modifies this
      ensures View() == Rolled(old(View()), now)
    {
      var elapsed := Since(now, started);
      if elapsed >= span {
        var spans := elapsed / (if span == 0 then 1 else span);
        started := started + span * (spans % U32);
        used := 0;
      }
    }

    method Charge(cost: nat)
      modifies this
      ensures View() == Charged(old(View()), cost)
    {
      used := Min(used + cost, U32 - 1);
    }
  }

  datatype Kind = Request | Order

  datatype Profile = Profile(weightPerMinute: nat, ordersPer10s: nat, ordersPerMinute: nat, ordersPerDay: nat)

  const BINANCE_SPOT := Profile(6_000, 100, 1_200, 200_000)
  const BINANCE_USDM := Profile(2_400, 300, 1_200, 200_000)

  datatype Budget = Weight | Orders10s | Orders1m | Orders1d

  datatype Decision = Send | Wait(for_: nat, budget: Budget)

  datatype Limiter = Limiter(weight: Counted, orders10s: Counted, orders1m: Counted, orders1d: Counted,
                             headroomPermille: nat, deferred: nat)

  function Fresh(p: Profile, now: int): Limiter {
    Limiter(Counted(p.weightPerMinute, 60 * SECOND, 0, now), Counted(p.ordersPer10s, 10 * SECOND, 0, now),
            Counted(p.ordersPerMinute, 60 * SECOND, 0, now), Counted(p.ordersPerDay, 86_400 * SECOND, 0, now),
            DEFAULT_HEADROOM_PERMILLE, 0)
  }

  function RollAll(l: Limiter, now: int): Limiter {
    l.(weight := Rolled(l.weight, now), orders10s := Rolled(l.orders10s, now),
       orders1m := Rolled(l.orders1m, now), orders1d := Rolled(l.orders1d, now))
  }

  function Headroom(l: Limiter): nat {
    Max((l.weight.limit * l.headroomPermille) % U32 / 1_000, 1)
  }

  function WithHeadroom(l: Limiter, weight: nat): nat {
    (weight + Headroom(l)) % U32
  }

  function Waits(l: Limiter, kind: Kind, weight: nat, now: int): seq<(Budget, nat)> {
    [(Weight, WaitFor(l.weight, WithHeadroom(l, weight), now))] +
    if kind.Request? then []
    else [(Orders10s, WaitFor(l.orders10s, 1, now)), (Orders1m, WaitFor(l.orders1m, 1, now)),
          (Orders1d, WaitFor(l.orders1d, 1, now))]
  }

  // The longest wait that is not zero; of equal ones, the last.
  function Longest(waits: seq<(Budget, nat)>): Option<(Budget, nat)> {
    if waits == [] then None
    else
      var best := Longest(waits[..|waits| - 1]);
      var last := waits[|waits| - 1];
      if last.1 == 0 || (best.Some? && last.1 < best.value.1) then best else Some(last)
  }

  lemma {:induction false} LongestWait(waits: seq<(Budget, nat)>)
    ensures match Longest(waits)
            case None => forall i :: 0 <= i < |waits| ==> waits[i].1 == 0
            case Some(r) =>
              && 0 < r.1 && (forall i :: 0 <= i < |waits| ==> waits[i].1 <= r.1)
              && (exists i :: 0 <= i < |waits| && waits[i] == r && LastOfEqual(waits, i))
  {
    if waits != [] {
      var n := |waits| - 1;
      LongestWait(waits[..n]);
      var best := Longest(waits[..n]);
      if waits[n].1 == 0 || (best.Some? && waits[n].1 < best.value.1) {
        if best.Some? {
          var i :| 0 <= i < n && waits[..n][i] == best.value && LastOfEqual(waits[..n], i);
          assert waits[i] == best.value && LastOfEqual(waits, i);
        }
      } else {
        assert LastOfEqual(waits, n);
      }
    }
  }

  // Nothing behind position `i` is as long.
  predicate LastOfEqual(waits: seq<(Budget, nat)>, i: nat)
    requires i < |waits|
  {
    forall j :: i < j < |waits| ==> waits[j].1 < waits[i].1
  }

  function Checked(l: Limiter, kind: Kind, weight: nat, now: int): (Limiter, Decision) {
    var r := RollAll(l, now);
    match Longest(Waits(r, kind, weight, now))
    case Some((budget, wait)) => (r.(deferred := r.deferred + 1), Wait(wait, budget))
    case None =>
      var counted := r.(weight := Charged(r.weight, weight));
      (if kind.Request? then counted
       else counted.(orders10s := Charged(r.orders10s, 1), orders1m := Charged(r.orders1m, 1),
                     orders1d := Charged(r.orders1d, 1)),
       Send)
  }

  function Observed(l: Limiter, venueUsed: nat, now: int): Limiter {
    var r := RollAll(l, now);
    if venueUsed > r.weight.used then r.(weight := r.weight.(used := venueUsed)) else r
  }

  // `earliest` is the first instant the clock can express.
  function Rejected(l: Limiter, retryAfter: Option<nat>, now: int, earliest: int): Limiter {
    var spent := l.weight.(used := l.weight.limit);
    l.(weight := match retryAfter
                 case None => spent
                 case Some(after) =>
                   spent.(started := if now + after - spent.span >= earliest then now + after - spent.span else now))
  }

  class RateLimiter {
    const weight: Window
    const orders10s: Window
    const orders1m: Window
    const orders1d: Window
    const headroomPermille: nat
    var deferred: nat

    ghost predicate Valid() {
      weight != orders10s && weight != orders1m && weight != orders1d
      && orders10s != orders1m && orders10s != orders1d && orders1m != orders1d
    }

    function View(): Limiter
      reads this, weight, orders10s, orders1m, orders1d
    {
      Limiter(weight.View(), orders10s.View(), orders1m.View(), orders1d.View(), headroomPermille, deferred)
    }

    constructor (p: Profile, now: int)
      ensures Valid() && View() == Fresh(p, now)
    {
      weight := new Window(p.weightPerMinute, 60 * SECOND, now);
      orders10s := new Window(p.ordersPer10s, 10 * SECOND, now);
      orders1m := new Window(p.ordersPerMinute, 60 * SECOND, now);
      orders1d := new Window(p.ordersPerDay, 86_400 * SECOND, now);
      headroomPermille := DEFAULT_HEADROOM_PERMILLE;
      deferred := 0;
    }

    method RollWindows(now: int)
      requires Valid()
      modifies weight, orders10s, orders1m, orders1d
      ensures View() == RollAll(old(View()), now)
    {
      weight.Roll(now);
      orders10s.Roll(now);
      orders1m.Roll(now);
      orders1d.Roll(now);
    }

    method Check(kind: Kind, cost: nat, now: int) returns (decision: Decision)
      requires Valid()
      modifies this, weight, orders10s, orders1m, orders1d
      ensures (View(), decision) == Checked(old(View()), kind, cost, now)
    {
      RollWindows(now);
      var effective := WithHeadroom(View(), cost);
      var waits := [(Weight, WaitFor(weight.View(), effective, now))];
      if kind == Order {
        waits := waits + [(Orders10s, WaitFor(orders10s.View(), 1, now)),
                          (Orders1m, WaitFor(orders1m.View(), 1, now)),
                          (Orders1d, WaitFor(orders1d.View(), 1, now))];
      }
      assert waits == Waits(View(), kind, cost, now);
      var longest := Longest(waits);
      if longest.Some? {
        deferred := deferred + 1;
        return Wait(longest.value.1, longest.value.0);
      }
      weight.Charge(cost);
      if kind == Order {
        orders10s.Charge(1);
        orders1m.Charge(1);
        orders1d.Charge(1);
      }
      return Send;
    }

    method ObserveUsed(venueUsed: nat, now: int)
      requires Valid()
      modifies weight, orders10s, orders1m, orders1d
      ensures View() == Observed(old(View()), venueUsed, now)
    {
      RollWindows(now);
      if venueUsed > weight.used {
        weight.used := venueUsed;
      }
    }

    method ObserveRejection(retryAfter: Option<nat>, now: int, earliest: int)
      requires Valid()
      modifies weight
      ensures View() == Rejected(old(View()), retryAfter, now, earliest)
    {
      weight.used := weight.limit;
      if retryAfter.Some? {
        var start := now + retryAfter.value - weight.span;
        weight.started := if start >= earliest then start else now;
      }
    }
  }

  // ---------------------------------------------------------------- the wait is exact

  // Nothing in the 32-bit arithmetic of a check wraps, and no window has been idle so long that
  // the count of spans is truncated.
  ghost predicate InRange(w: Counted, cost: nat, now: int) {
    0 < w.span && w.used + cost < U32 && cost < U32 && Since(now, w.started) / w.span < U32
  }

  predicate Exceeds(w: Counted, cost: nat) { w.used + cost > w.limit }

  // `at` is `n` whole spans after `origin`.
  ghost predicate OnGrid(origin: int, span: nat, at: int, n: nat) { at == origin + span * n }

  // Where a roll lands: in the aligned window holding `now`.
  lemma RolledLands(w: Counted, now: int)
    requires 0 < w.span && Since(now, w.started) / w.span < U32
    ensures var r := Rolled(w, now);
            && r.limit == w.limit && r.span == w.span
            && Since(now, r.started) < w.span
            && (r != w ==> r.used == 0 && w.started + w.span <= r.started <= now)
            && (r != w ==> exists n: nat :: OnGrid(w.started, w.span, r.started, n))
  {
    var elapsed := Since(now, w.started);
    if elapsed >= w.span {
      var n := elapsed / w.span;
      assert elapsed == w.span * n + elapsed % w.span;
      assert n == 0 ==> w.span * n == 0;
      assert w.span * n >= w.span by { MulAtLeast(w.span, n); }
      assert OnGrid(w.started, w.span, Rolled(w, now).started, n);
    }
  }

  lemma MulAtLeast(span: nat, n: nat)
    requires 1 <= n
    ensures span * n >= span
  {
    assert span * n == span * (n - 1) + span;
  }

  // A window rolled at `now`, looked at again later: it makes a check wait until it turns over, and
  // from then on only if the cost could never fit.
  lemma WindowLater(w: Counted, cost: nat, now: int, t: int)
    requires Since(now, w.started) < w.span && now <= t && InRange(w, cost, t)
    ensures WaitFor(w, cost, now) == if Exceeds(w, cost) then w.started + w.span - now else 0
    ensures t < w.started + w.span ==> (WaitFor(Rolled(w, t), cost, t) > 0 <==> Exceeds(w, cost))
    ensures t >= w.started + w.span ==> (WaitFor(Rolled(w, t), cost, t) > 0 <==> cost > w.limit)
  {
    RolledLands(w, t);
    if t < w.started + w.span {
      assert Rolled(w, t) == w;
    }
  }

  ghost predicate AllInRange(l: Limiter, weight: nat, now: int) {
    && weight + Headroom(l) < U32 && l.weight.limit * l.headroomPermille < U32
    && InRange(l.weight, weight + Headroom(l), now)
    && InRange(l.orders10s, 1, now) && InRange(l.orders1m, 1, now) && InRange(l.orders1d, 1, now)
  }

  // The request fits empty windows; otherwise no amount of waiting helps.
  predicate CanEverFit(l: Limiter, kind: Kind, weight: nat) {
    && weight + Headroom(l) <= l.weight.limit
    && (kind.Order? ==> 1 <= l.orders10s.limit && 1 <= l.orders1m.limit && 1 <= l.orders1d.limit)
  }

  lemma RangeSurvivesRoll(w: Counted, cost: nat, now: int, t: int)
    requires now <= t && InRange(w, cost, now) && InRange(w, cost, t)
    ensures InRange(Rolled(w, now), cost, t) && Since(now, Rolled(w, now).started) < w.span
  {
    RolledLands(w, now);
    var r := Rolled(w, now);
    if r != w {
      assert Since(t, r.started) <= Since(t, w.started);
      DivMonotone(Since(t, r.started), Since(t, w.started), w.span);
    }
  }

  lemma DivMonotone(a: nat, b: nat, d: nat)
    requires a <= b && 0 < d
    ensures a / d <= b / d
  {
    assert a == d * (a / d) + a % d && b == d * (b / d) + b % d;
    var x := a / d - b / d;
    assert d * x == d * (a / d) - d * (b / d) < d;
    assert x >= 1 ==> d * x >= d;
  }

  // Whether a check has to wait, window by window; `cost` includes the headroom.
  predicate MustWaitFor(r: Limiter, kind: Kind, cost: nat, now: int) {
    || WaitFor(r.weight, cost, now) > 0
    || (kind.Order? &&
          (WaitFor(r.orders10s, 1, now) > 0 || WaitFor(r.orders1m, 1, now) > 0 || WaitFor(r.orders1d, 1, now) > 0))
  }

  predicate MustWait(r: Limiter, kind: Kind, weight: nat, now: int) {
    MustWaitFor(r, kind, WithHeadroom(r, weight), now)
  }

  lemma CheckedWaits(l: Limiter, kind: Kind, weight: nat, now: int)
    ensures var r, d := RollAll(l, now), Checked(l, kind, weight, now).1;
            && (d.Wait? <==> MustWait(r, kind, weight, now))
            && (d.Wait? ==>
                  && Checked(l, kind, weight, now).0 == r.(deferred := r.deferred + 1) && 0 < d.for_
                  && LongestIs(kind, WaitFor(r.weight, WithHeadroom(r, weight), now), WaitFor(r.orders10s, 1, now),
                               WaitFor(r.orders1m, 1, now), WaitFor(r.orders1d, 1, now), d.for_)
                  && (match d.budget
                      case Weight =>
                        && d.for_ == WaitFor(r.weight, WithHeadroom(r, weight), now)
                        && (kind.Order? ==>
                              && d.for_ > WaitFor(r.orders10s, 1, now) && d.for_ > WaitFor(r.orders1m, 1, now)
                              && d.for_ > WaitFor(r.orders1d, 1, now))
                      case Orders10s =>
                        && kind.Order? && d.for_ == WaitFor(r.orders10s, 1, now)
                        && d.for_ > WaitFor(r.orders1m, 1, now) && d.for_ > WaitFor(r.orders1d, 1, now)
                      case Orders1m =>
                        kind.Order? && d.for_ == WaitFor(r.orders1m, 1, now) && d.for_ > WaitFor(r.orders1d, 1, now)
                      case Orders1d => kind.Order? && d.for_ == WaitFor(r.orders1d, 1, now)))
  {
    var r := RollAll(l, now);
    var waits := Waits(r, kind, weight, now);
    assert waits[0] == (Weight, WaitFor(r.weight, WithHeadroom(r, weight), now));
    if kind.Order? {
      assert |waits| == 4;
      assert waits[1] == (Orders10s, WaitFor(r.orders10s, 1, now));
      assert waits[2] == (Orders1m, WaitFor(r.orders1m, 1, now));
      assert waits[3] == (Orders1d, WaitFor(r.orders1d, 1, now));
    } else {
      assert |waits| == 1;
    }
    LongestWait(waits);
  }

  lemma RefusedIf(l: Limiter, kind: Kind, weight: nat, now: int)
    ensures Checked(l, kind, weight, now).1.Wait? <==> MustWait(RollAll(l, now), kind, weight, now)
  {
    CheckedWaits(l, kind, weight, now);
  }

  lemma RefusalIs(l: Limiter, kind: Kind, weight: nat, now: int)
    requires Checked(l, kind, weight, now).1.Wait?
    ensures var r, (l', d) := RollAll(l, now), Checked(l, kind, weight, now);
            && l' == r.(deferred := r.deferred + 1)
            && LongestIs(kind, WaitFor(r.weight, WithHeadroom(r, weight), now), WaitFor(r.orders10s, 1, now),
                         WaitFor(r.orders1m, 1, now), WaitFor(r.orders1d, 1, now), d.for_)
  {
    CheckedWaits(l, kind, weight, now);
  }

  // The wait a refused check is told to make is exactly right: repeated any earlier it is refused
  // again, and at that moment it goes out, if and only if it fits an empty budget at all.
  lemma ExactWait(l: Limiter, kind: Kind, weight: nat, now: int, t: int)
    requires Checked(l, kind, weight, now).1.Wait?
    requires now <= t && AllInRange(l, weight, now) && AllInRange(l, weight, t)
    ensures var (l', d) := Checked(l, kind, weight, now);
            && (t < now + d.for_ ==> Checked(l', kind, weight, t).1.Wait?)
            && (t == now + d.for_ ==> (Checked(l', kind, weight, t).1.Send? <==> CanEverFit(l, kind, weight)))
  {
    var (l', d) := Checked(l, kind, weight, now);
    RefusalIs(l, kind, weight, now);
    RefusedIf(l', kind, weight, t);
    HeadroomStays(l, weight, now);
    LaterWindows(l, kind, weight + Headroom(l), now, t, d.for_);
    SameWindows(l, kind, weight, now, t, l');
  }

  lemma HeadroomStays(l: Limiter, weight: nat, now: int)
    requires weight + Headroom(l) < U32
    ensures WithHeadroom(l, weight) == WithHeadroom(RollAll(l, now), weight) == weight + Headroom(l)
    ensures Headroom(RollAll(l, now)) == Headroom(l)
  {
    assert RollAll(l, now).weight.limit == l.weight.limit;
  }

  lemma SameWindows(l: Limiter, kind: Kind, weight: nat, now: int, t: int, l': Limiter)
    requires weight + Headroom(l) < U32 && l' == RollAll(l, now).(deferred := l'.deferred)
    ensures MustWait(RollAll(l', t), kind, weight, t) <==>
            MustWaitFor(RollAll(RollAll(l, now), t), kind, weight + Headroom(l), t)
  {
    HeadroomStays(l, weight, now);
    assert Headroom(l') == Headroom(l);
    HeadroomStays(l', weight, t);
  }

  // The same, for the windows alone: `wait` is the longest of their waits at `now`.
  lemma LaterWindows(l: Limiter, kind: Kind, cost: nat, now: int, t: int, wait: nat)
    requires now <= t
    requires forall at :: at in {now, t} ==>
               && InRange(l.weight, cost, at) && InRange(l.orders10s, 1, at)
               && InRange(l.orders1m, 1, at) && InRange(l.orders1d, 1, at)
    requires var r := RollAll(l, now);
             LongestIs(kind, WaitFor(r.weight, cost, now), WaitFor(r.orders10s, 1, now),
                       WaitFor(r.orders1m, 1, now), WaitFor(r.orders1d, 1, now), wait)
    ensures var later := RollAll(RollAll(l, now), t);
            && (t < now + wait ==> MustWaitFor(later, kind, cost, t))
            && (t == now + wait ==> (MustWaitFor(later, kind, cost, t) <==>
                  || cost > l.weight.limit
                  || (kind.Order? && (1 > l.orders10s.limit || 1 > l.orders1m.limit || 1 > l.orders1d.limit))))
  {
    var a, a' := LaterLook(l.weight, cost, now, t);
    var b, b' := LaterLook(l.orders10s, 1, now, t);
    var c, c' := LaterLook(l.orders1m, 1, now, t);
    var d, d' := LaterLook(l.orders1d, 1, now, t);
  }

  predicate LongestIs(kind: Kind, a: nat, b: nat, c: nat, d: nat, longest: nat) {
    && a <= longest && (kind.Order? ==> b <= longest && c <= longest && d <= longest)
    && (longest == a || (kind.Order? && (longest == b || longest == c || longest == d)))
  }

  lemma LaterLook(w: Counted, cost: nat, now: int, t: int) returns (wait: nat, again: bool)
    requires now <= t && InRange(w, cost, now) && InRange(w, cost, t)
    ensures wait == WaitFor(Rolled(w, now), cost, now)
    ensures again <==> WaitFor(Rolled(Rolled(w, now), t), cost, t) > 0
    ensures t < now + wait ==> again
    ensures now + wait <= t ==> (again <==> cost > w.limit)
  {
    RangeSurvivesRoll(w, cost, now, t);
    RolledLands(w, now);
    WindowLater(Rolled(w, now), cost, now, t);
    wait := WaitFor(Rolled(w, now), cost, now);
    again := WaitFor(Rolled(Rolled(w, now), t), cost, t) > 0;
  }

  // What a window leaves room for at `t`: it is empty again once its end has passed.
  predicate HasRoom(w: Counted, cost: nat, t: int) {
    (if t < w.started + w.span then w.used else 0) + cost <= w.limit
  }

  lemma RoomAt(w: Counted, cost: nat, t: int)
    requires InRange(w, cost, t)
    ensures WaitFor(Rolled(w, t), cost, t) == 0 <==> HasRoom(w, cost, t)
  {
    RolledLands(w, t);
    if t < w.started + w.span {
      assert Rolled(w, t) == w;
    }
  }

  // When the window a rejection gave up ends. Without a hint it is kept as it was last rolled; with
  // one it ends when the hint says, or a whole window from now if the clock cannot express its start.
  function FreedAt(l: Limiter, retryAfter: Option<nat>, now: int, earliest: int): int {
    match retryAfter
    case None => l.weight.started + l.weight.span
    case Some(after) => if now + after - l.weight.span >= earliest then now + after else now + l.weight.span
  }

  // After a rejection a check goes out exactly if the given-up window has ended, and the request
  // fits an empty one, and for an order the order budgets have room; never before the hint.
  lemma RejectionHolds(l: Limiter, kind: Kind, weight: nat, retryAfter: Option<nat>, now: int, earliest: int, t: int)
    requires earliest <= now && AllInRange(Rejected(l, retryAfter, now, earliest), weight, t)
    ensures var d := Checked(Rejected(l, retryAfter, now, earliest), kind, weight, t).1;
            && (d.Send? <==>
                  && FreedAt(l, retryAfter, now, earliest) <= t
                  && weight + Headroom(l) <= l.weight.limit
                  && (kind.Order? ==>
                        HasRoom(l.orders10s, 1, t) && HasRoom(l.orders1m, 1, t) && HasRoom(l.orders1d, 1, t)))
            && (retryAfter.Some? ==> now + retryAfter.value <= FreedAt(l, retryAfter, now, earliest))
  {
    var l' := Rejected(l, retryAfter, now, earliest);
    assert Headroom(l') == Headroom(l) >= 1;
    CheckedWaits(l', kind, weight, t);
    HeadroomStays(l', weight, t);
    RoomAt(l'.weight, weight + Headroom(l), t);
    RoomAt(l.orders10s, 1, t);
    RoomAt(l.orders1m, 1, t);
    RoomAt(l.orders1d, 1, t);
  }

  // So a rejection without a hint can be without effect: a request goes out, its minute passes, the
  // rejection comes in before anything else was checked, and the very next request goes out as well.
  lemma RejectionForgotten(origin: int, weight: nat, now: int)
    requires weight <= 5_700 && origin + 60 * SECOND <= now < origin + 120 * SECOND
    ensures var (l, first) := Checked(Fresh(BINANCE_SPOT, origin), Request, weight, origin);
            && first.Send?
            && Checked(Rejected(l, None, now, origin), Request, weight, now).1.Send?
  {
    FirstRequest(origin, weight);
    var l := Checked(Fresh(BINANCE_SPOT, origin), Request, weight, origin).0;
    RejectionHolds(l, Request, weight, None, now, origin, now);
  }

  lemma FirstRequest(origin: int, weight: nat)
    requires weight <= 5_700
    ensures var l := Fresh(BINANCE_SPOT, origin);
            Headroom(l) == 300 && Checked(l, Request, weight, origin) == (l.(weight := Charged(l.weight, weight)), Send)
  {
    CheckedWaits(Fresh(BINANCE_SPOT, origin), Request, weight, origin);
  }

  // The venue's own count is adopted upward only, and it is honoured: within the same window
  // nothing goes out that it leaves no room for.
  lemma ObservedIsHonoured(l: Limiter, venueUsed: nat, now: int, kind: Kind, weight: nat, t: int)
    requires now <= t && weight + Headroom(l) < U32 && 0 < l.weight.span
    requires var o := Observed(l, venueUsed, now);
             InRange(o.weight, weight + Headroom(l), t) && t < o.weight.started + o.weight.span
    ensures var o := Observed(l, venueUsed, now);
            && (Checked(o, kind, weight, t).1.Send? ==> venueUsed + weight + Headroom(l) <= l.weight.limit)
            && (venueUsed <= Rolled(l.weight, now).used ==> o == RollAll(l, now))
            && o.weight.used == Max(Rolled(l.weight, now).used, venueUsed)
  {
    var o := Observed(l, venueUsed, now);
    assert o.weight.limit == l.weight.limit && Headroom(o) == Headroom(l);
    HeadroomStays(o, weight, t);
    CheckedWaits(o, kind, weight, t);
    RoomAt(o.weight, weight + Headroom(l), t);
  }

  // ---------------------------------------------------------------- the budgets are kept

  datatype Op = Ask(kind: Kind, weight: nat, now: int) | Observe(venueUsed: nat, now: int)

  datatype Sent = Sent(kind: Kind, weight: nat, at: int)

  // A limiter after a run, with everything it let through.
  datatype Trail = Trail(limiter: Limiter, sent: seq<Sent>)

  function Play(p: Profile, origin: int, ops: seq<Op>): Trail {
    if ops == [] then Trail(Fresh(p, origin), [])
    else Next(Play(p, origin, ops[..|ops| - 1]), ops[|ops| - 1])
  }

  const SMALL: nat := 0x4000_0000

  ghost predicate Modest(p: Profile) {
    && p.weightPerMinute * DEFAULT_HEADROOM_PERMILLE < U32
    && p.weightPerMinute < SMALL && p.ordersPer10s < SMALL && p.ordersPerMinute < SMALL && p.ordersPerDay < SMALL
  }

  // The clock does not run backwards, and the numbers stay clear of 32 bits.
  ghost predicate Tame(p: Profile, origin: int, ops: seq<Op>) {
    && Modest(p)
    && (forall i :: 0 <= i < |ops| ==> origin <= ops[i].now < origin + 10 * SECOND * U32)
    && (forall i, j :: 0 <= i < j < |ops| ==> ops[i].now <= ops[j].now)
    && (forall i :: 0 <= i < |ops| ==>
          (ops[i].Ask? ==> ops[i].weight < SMALL) && (ops[i].Observe? ==> ops[i].venueUsed < SMALL))
  }

  datatype Meter = ByWeight | ByOrders

  function Cost(m: Meter, s: Sent): nat {
    match m
    case ByWeight => s.weight
    case ByOrders => if s.kind.Order? then 1 else 0
  }

  // What was let through in `[from, to)`.
  function Spent(m: Meter, sent: seq<Sent>, from: int, to: int): nat {
    if sent == [] then 0
    else
      var s := sent[|sent| - 1];
      Spent(m, sent[..|sent| - 1], from, to) + if from <= s.at < to then Cost(m, s) else 0
  }

  // What was let through in the `n`th slot of `span` after `origin`.
  function SlotSpent(m: Meter, sent: seq<Sent>, origin: int, span: nat, n: nat): nat {
    Spent(m, sent, origin + span * n, origin + span * n + span)
  }

  // One window after operations up to `last`, against what was really sent.
  ghost predicate Faithful(w: Counted, m: Meter, cap: nat, origin: int, last: int, sent: seq<Sent>) {
    && 0 < w.span && w.used < SMALL + SMALL / 2
    && w.started <= last < w.started + w.span
    && (exists n: nat :: OnGrid(origin, w.span, w.started, n))
    && (forall i :: 0 <= i < |sent| ==> sent[i].at <= last)
    && Spent(m, sent, w.started, w.started + w.span) <= w.used
    && (forall n: nat :: SlotSpent(m, sent, origin, w.span, n) <= cap)
  }

  lemma {:induction false} NothingSpentYet(m: Meter, sent: seq<Sent>, from: int, to: int)
    requires forall i :: 0 <= i < |sent| ==> sent[i].at < from
    ensures Spent(m, sent, from, to) == 0
  {
    if sent != [] {
      NothingSpentYet(m, sent[..|sent| - 1], from, to);
    }
  }

  lemma RollStaysFaithful(w: Counted, m: Meter, cap: nat, origin: int, last: int, sent: seq<Sent>, now: int)
    requires Faithful(w, m, cap, origin, last, sent) && last <= now
    requires now < origin + w.span * U32
    ensures Faithful(Rolled(w, now), m, cap, origin, now, sent)
  {
    var k: nat :| OnGrid(origin, w.span, w.started, k);
    FewSpans(w, k, origin, now);
    RolledLands(w, now);
    var r := Rolled(w, now);
    if r != w {
      NothingSpentYet(m, sent, r.started, r.started + r.span);
      var n: nat :| OnGrid(w.started, w.span, r.started, n);
      assert w.span * (k + n) == w.span * k + w.span * n;
      assert OnGrid(origin, r.span, r.started, k + n);
    }
  }

  lemma FewSpans(w: Counted, k: nat, origin: int, now: int)
    requires 0 < w.span && w.started == origin + w.span * k && now < origin + w.span * U32
    ensures Since(now, w.started) / w.span < U32
  {
    assert w.span * k >= 0;
    var e := Since(now, w.started);
    assert e < w.span * U32;
    assert e == w.span * (e / w.span) + e % w.span;
    var x := e / w.span - U32;
    assert w.span * x == w.span * (e / w.span) - w.span * U32 < 0;
    assert x >= 0 ==> w.span * x >= 0;
  }

  // Letting one more thing through, at the time the window was rolled to.
  lemma SendStaysFaithful(w: Counted, w': Counted, m: Meter, cap: nat, origin: int, now: int, sent: seq<Sent>, s: Sent)
    requires Faithful(w, m, cap, origin, now, sent) && s.at == now
    requires w' == w.(used := w'.used) && w.used + Cost(m, s) <= w'.used < SMALL + SMALL / 2
    requires Cost(m, s) > 0 ==> w.used + Cost(m, s) <= cap
    ensures Faithful(w', m, cap, origin, now, sent + [s])
  {
    var sent' := sent + [s];
    assert sent'[..|sent'| - 1] == sent;
    var k: nat :| OnGrid(origin, w.span, w.started, k);
    forall n: nat
      ensures SlotSpent(m, sent', origin, w.span, n) <= cap
    {
      var from := origin + w.span * n;
      assert SlotSpent(m, sent, origin, w.span, n) <= cap;
      if from <= now < from + w.span {
        SameSlot(w.span, n, k, now - origin);
        assert from == w.started;
      }
    }
  }

  lemma SameSlot(span: nat, n: nat, k: nat, x: int)
    requires span * n <= x < span * n + span && span * k <= x < span * k + span
    ensures n == k
  {
    if n < k {
      SlotOrder(span, n, k);
    } else if k < n {
      SlotOrder(span, k, n);
    }
  }

  lemma SlotOrder(span: nat, n: nat, k: nat)
    requires n < k
    ensures span * n + span <= span * k
  {
    MulAtLeast(span, k - n);
    assert span * k == span * n + span * (k - n);
  }

  ghost predicate Kept(p: Profile, origin: int, last: int, t: Trail) {
    var l := t.limiter;
    && l.headroomPermille == DEFAULT_HEADROOM_PERMILLE
    && (l.weight.limit, l.weight.span) == (p.weightPerMinute, 60 * SECOND)
    && (l.orders10s.limit, l.orders10s.span) == (p.ordersPer10s, 10 * SECOND)
    && (l.orders1m.limit, l.orders1m.span) == (p.ordersPerMinute, 60 * SECOND)
    && (l.orders1d.limit, l.orders1d.span) == (p.ordersPerDay, 86_400 * SECOND)
    && Faithful(l.weight, ByWeight, WeightCap(p), origin, last, t.sent)
    && Faithful(l.orders10s, ByOrders, p.ordersPer10s, origin, last, t.sent)
    && Faithful(l.orders1m, ByOrders, p.ordersPerMinute, origin, last, t.sent)
    && Faithful(l.orders1d, ByOrders, p.ordersPerDay, origin, last, t.sent)
  }

  // The share of the weight limit that is not held back.
  function WeightCap(p: Profile): nat {
    Max(p.weightPerMinute - Max(p.weightPerMinute * DEFAULT_HEADROOM_PERMILLE / 1_000, 1), 0)
  }

  lemma RollKeeps(p: Profile, origin: int, last: int, t: Trail, now: int)
    requires Kept(p, origin, last, t) && last <= now < origin + 10 * SECOND * U32
    ensures Kept(p, origin, now, t.(limiter := RollAll(t.limiter, now)))
  {
    var l := t.limiter;
    RollStaysFaithful(l.weight, ByWeight, WeightCap(p), origin, last, t.sent, now);
    RollStaysFaithful(l.orders10s, ByOrders, p.ordersPer10s, origin, last, t.sent, now);
    RollStaysFaithful(l.orders1m, ByOrders, p.ordersPerMinute, origin, last, t.sent, now);
    RollStaysFaithful(l.orders1d, ByOrders, p.ordersPerDay, origin, last, t.sent, now);
  }

  // A rolled window that makes nothing wait has room.
  lemma NoWaitMeansRoom(w: Counted, cost: nat, now: int)
    requires w.used + cost < U32 && now < w.started + w.span && WaitFor(w, cost, now) == 0
    ensures w.used + cost <= w.limit
  {
  }

  lemma OrderKeeps(w: Counted, cap: nat, origin: int, now: int, sent: seq<Sent>, s: Sent)
    requires Faithful(w, ByOrders, cap, origin, now, sent) && s.at == now && w.limit == cap < SMALL
    requires s.kind.Order? ==> WaitFor(w, 1, now) == 0
    ensures Faithful(if s.kind.Order? then Charged(w, 1) else w, ByOrders, cap, origin, now, sent + [s])
  {
    if s.kind.Order? {
      NoWaitMeansRoom(w, 1, now);
      SendStaysFaithful(w, Charged(w, 1), ByOrders, cap, origin, now, sent, s);
    } else {
      SendStaysFaithful(w, w, ByOrders, cap, origin, now, sent, s);
    }
  }

  lemma WeightKeeps(w: Counted, held: nat, cap: nat, origin: int, now: int, sent: seq<Sent>, s: Sent)
    requires Faithful(w, ByWeight, cap, origin, now, sent) && s.at == now && w.limit < SMALL && s.weight < SMALL
    requires held < SMALL && cap == Max(w.limit - held, 0) && WaitFor(w, s.weight + held, now) == 0
    ensures Faithful(Charged(w, s.weight), ByWeight, cap, origin, now, sent + [s])
  {
    NoWaitMeansRoom(w, s.weight + held, now);
    SendStaysFaithful(w, Charged(w, s.weight), ByWeight, cap, origin, now, sent, s);
  }

  lemma HeldBack(p: Profile, l: Limiter, weight: nat)
    requires Modest(p) && weight < SMALL
    requires l.weight.limit == p.weightPerMinute && l.headroomPermille == DEFAULT_HEADROOM_PERMILLE
    ensures Headroom(l) < SMALL && WithHeadroom(l, weight) == weight + Headroom(l)
    ensures WeightCap(p) == Max(p.weightPerMinute - Headroom(l), 0)
  {
    var x := p.weightPerMinute * DEFAULT_HEADROOM_PERMILLE;
    assert l.weight.limit * l.headroomPermille == x;
    NoWrap(x);
    var held := Max(x / 1_000, 1);
    assert x / 1_000 <= p.weightPerMinute;
    assert Headroom(l) == held;
    NoWrap(weight + held);
  }

  lemma NoWrap(x: nat)
    requires x < U32
    ensures x % U32 == x
  {
  }

  lemma SendKeeps(p: Profile, origin: int, t: Trail, kind: Kind, weight: nat, now: int)
    requires Modest(p) && weight < SMALL
    requires Kept(p, origin, now, t) && !MustWait(t.limiter, kind, weight, now)
    ensures var l := t.limiter;
            var counted := l.(weight := Charged(l.weight, weight));
            var l' := if kind.Request? then counted
                      else counted.(orders10s := Charged(l.orders10s, 1), orders1m := Charged(l.orders1m, 1),
                                    orders1d := Charged(l.orders1d, 1));
            Kept(p, origin, now, Trail(l', t.sent + [Sent(kind, weight, now)]))
  {
    var l, s, held := t.limiter, Sent(kind, weight, now), Headroom(t.limiter);
    HeldBack(p, l, weight);
    WeightKeeps(l.weight, held, WeightCap(p), origin, now, t.sent, s);
    OrderKeeps(l.orders10s, p.ordersPer10s, origin, now, t.sent, s);
    OrderKeeps(l.orders1m, p.ordersPerMinute, origin, now, t.sent, s);
    OrderKeeps(l.orders1d, p.ordersPerDay, origin, now, t.sent, s);
  }

  lemma AskKeeps(p: Profile, origin: int, last: int, t: Trail, kind: Kind, weight: nat, now: int)
    requires Modest(p) && weight < SMALL
    requires Kept(p, origin, last, t) && last <= now < origin + 10 * SECOND * U32
    ensures var (l, d) := Checked(t.limiter, kind, weight, now);
            Kept(p, origin, now, Trail(l, if d.Send? then t.sent + [Sent(kind, weight, now)] else t.sent))
  {
    RollKeeps(p, origin, last, t, now);
    CheckedWaits(t.limiter, kind, weight, now);
    var rolled := t.(limiter := RollAll(t.limiter, now));
    if !MustWait(rolled.limiter, kind, weight, now) {
      SendKeeps(p, origin, rolled, kind, weight, now);
    }
  }

  lemma {:induction false} NothingSent(m: Meter, origin: int, span: nat)
    ensures forall n: nat :: SlotSpent(m, [], origin, span, n) == 0
  {
  }

  lemma FreshIsFaithful(w: Counted, m: Meter, cap: nat, origin: int)
    requires 0 < w.span && w.used == 0 && w.started == origin
    ensures Faithful(w, m, cap, origin, origin, [])
  {
    NothingSent(m, origin, w.span);
    assert OnGrid(origin, w.span, w.started, 0);
  }

  lemma {:induction false} PlayKeeps(p: Profile, origin: int, ops: seq<Op>)
    requires Tame(p, origin, ops)
    ensures Kept(p, origin, LastTime(origin, ops), Play(p, origin, ops))
  {
    if ops == [] {
      FreshIsKept(p, origin);
    } else {
      var n := |ops| - 1;
      PlayKeeps(p, origin, ops[..n]);
      OpKeeps(p, origin, LastTime(origin, ops[..n]), Play(p, origin, ops[..n]), ops[n]);
    }
  }

  function LastTime(origin: int, ops: seq<Op>): int {
    if ops == [] then origin else ops[|ops| - 1].now
  }

  lemma FreshIsKept(p: Profile, origin: int)
    ensures Kept(p, origin, origin, Trail(Fresh(p, origin), []))
  {
    var l := Fresh(p, origin);
    FreshIsFaithful(l.weight, ByWeight, WeightCap(p), origin);
    FreshIsFaithful(l.orders10s, ByOrders, p.ordersPer10s, origin);
    FreshIsFaithful(l.orders1m, ByOrders, p.ordersPerMinute, origin);
    FreshIsFaithful(l.orders1d, ByOrders, p.ordersPerDay, origin);
  }

  function Next(t: Trail, op: Op): Trail {
    match op
    case Ask(kind, weight, now) =>
      var (l, d) := Checked(t.limiter, kind, weight, now);
      Trail(l, if d.Send? then t.sent + [Sent(kind, weight, now)] else t.sent)
    case Observe(venueUsed, now) => t.(limiter := Observed(t.limiter, venueUsed, now))
  }

  lemma OpKeeps(p: Profile, origin: int, last: int, t: Trail, op: Op)
    requires Modest(p) && Kept(p, origin, last, t) && last <= op.now < origin + 10 * SECOND * U32
    requires match op case Ask(_, weight, _) => weight < SMALL case Observe(venueUsed, _) => venueUsed < SMALL
    ensures Kept(p, origin, op.now, Next(t, op))
  {
    match op {
      case Ask(kind, weight, now) => AskKeeps(p, origin, last, t, kind, weight, now);
      case Observe(venueUsed, now) => RollKeeps(p, origin, last, t, now);
    }
  }

  // On every run without a rejection, whatever the venue's own counts say in between: in each
  // minute aligned to the limiter's start the weight let through stays within the limit less the
  // headroom, and the orders let through in each aligned ten seconds, minute and day stay within
  // theirs.
  lemma BudgetsKept(p: Profile, origin: int, ops: seq<Op>, n: nat)
    requires Tame(p, origin, ops)
    ensures var sent := Play(p, origin, ops).sent;
            && SlotSpent(ByWeight, sent, origin, 60 * SECOND, n) <= WeightCap(p)
            && SlotSpent(ByOrders, sent, origin, 10 * SECOND, n) <= p.ordersPer10s
            && SlotSpent(ByOrders, sent, origin, 60 * SECOND, n) <= p.ordersPerMinute
            && SlotSpent(ByOrders, sent, origin, 86_400 * SECOND, n) <= p.ordersPerDay
  {
    PlayKeeps(p, origin, ops);
  }

  // ---------------------------------------------------------------- what fits goes out

  // A window counts what was let through since it started, no less and no more.
  ghost predicate CountsExactly(w: Counted, m: Meter, sent: seq<Sent>) {
    w.used == Spent(m, sent, w.started, w.started + w.span)
  }

  ghost predicate AllCount(t: Trail) {
    && CountsExactly(t.limiter.weight, ByWeight, t.sent) && CountsExactly(t.limiter.orders10s, ByOrders, t.sent)
    && CountsExactly(t.limiter.orders1m, ByOrders, t.sent) && CountsExactly(t.limiter.orders1d, ByOrders, t.sent)
  }

  lemma RollStillCounts(w: Counted, m: Meter, cap: nat, origin: int, last: int, sent: seq<Sent>, now: int)
    requires Faithful(w, m, cap, origin, last, sent) && CountsExactly(w, m, sent)
    requires last <= now < origin + w.span * U32
    ensures CountsExactly(Rolled(w, now), m, sent)
  {
    var k: nat :| OnGrid(origin, w.span, w.started, k);
    FewSpans(w, k, origin, now);
    RolledLands(w, now);
    var r := Rolled(w, now);
    if r != w {
      NothingSpentYet(m, sent, r.started, r.started + r.span);
    }
  }

  lemma ChargeStillCounts(w: Counted, m: Meter, sent: seq<Sent>, s: Sent)
    requires CountsExactly(w, m, sent) && w.started <= s.at < w.started + w.span && w.used + Cost(m, s) < U32
    ensures CountsExactly(if Cost(m, s) == 0 then w else Charged(w, Cost(m, s)), m, sent + [s])
    ensures CountsExactly(Charged(w, Cost(m, s)), m, sent + [s])
  {
    assert (sent + [s])[..|sent|] == sent;
  }

  lemma RollAllCounts(p: Profile, origin: int, last: int, t: Trail, now: int)
    requires Kept(p, origin, last, t) && last <= now < origin + 10 * SECOND * U32 && AllCount(t)
    ensures AllCount(t.(limiter := RollAll(t.limiter, now)))
  {
    var l := t.limiter;
    RollStillCounts(l.weight, ByWeight, WeightCap(p), origin, last, t.sent, now);
    RollStillCounts(l.orders10s, ByOrders, p.ordersPer10s, origin, last, t.sent, now);
    RollStillCounts(l.orders1m, ByOrders, p.ordersPerMinute, origin, last, t.sent, now);
    RollStillCounts(l.orders1d, ByOrders, p.ordersPerDay, origin, last, t.sent, now);
  }

  lemma AskStillCounts(p: Profile, origin: int, last: int, t: Trail, kind: Kind, weight: nat, now: int)
    requires Modest(p) && weight < SMALL && Kept(p, origin, last, t) && AllCount(t)
    requires last <= now < origin + 10 * SECOND * U32
    ensures AllCount(Next(t, Ask(kind, weight, now)))
  {
    RollKeeps(p, origin, last, t, now);
    RollAllCounts(p, origin, last, t, now);
    CheckedWaits(t.limiter, kind, weight, now);
    if Checked(t.limiter, kind, weight, now).1.Send? {
      var l, s := RollAll(t.limiter, now), Sent(kind, weight, now);
      ChargeStillCounts(l.weight, ByWeight, t.sent, s);
      ChargeStillCounts(l.orders10s, ByOrders, t.sent, s);
      ChargeStillCounts(l.orders1m, ByOrders, t.sent, s);
      ChargeStillCounts(l.orders1d, ByOrders, t.sent, s);
    }
  }

  ghost predicate AsksOnly(ops: seq<Op>) {
    forall i :: 0 <= i < |ops| ==> ops[i].Ask?
  }

  lemma {:induction false} PlayCounts(p: Profile, origin: int, ops: seq<Op>)
    requires Tame(p, origin, ops) && AsksOnly(ops)
    ensures AllCount(Play(p, origin, ops))
  {
    if ops != [] {
      var n := |ops| - 1;
      PlayCounts(p, origin, ops[..n]);
      PlayKeeps(p, origin, ops[..n]);
      assert ops[n].Ask?;
      AskStillCounts(p, origin, LastTime(origin, ops[..n]), Play(p, origin, ops[..n]),
                     ops[n].kind, ops[n].weight, ops[n].now);
    }
  }

  // The slot of `span` after `origin` that holds `now`.
  function SlotOf(origin: int, span: nat, now: int): nat
    requires origin <= now && 0 < span
  {
    (now - origin) / span
  }

  lemma CountsItsSlot(w: Counted, m: Meter, cap: nat, origin: int, now: int, sent: seq<Sent>)
    requires Faithful(w, m, cap, origin, now, sent) && CountsExactly(w, m, sent) && origin <= now
    ensures w.used == SlotSpent(m, sent, origin, w.span, SlotOf(origin, w.span, now))
  {
    var k: nat :| OnGrid(origin, w.span, w.started, k);
    var x, n := now - origin, SlotOf(origin, w.span, now);
    assert x == w.span * n + x % w.span;
    SameSlot(w.span, n, k, x);
  }

  // What one budget leaves room for: its slot's share so far, and the cost.
  predicate Fits(m: Meter, sent: seq<Sent>, origin: int, span: nat, now: int, cost: nat, limit: nat)
    requires origin <= now && 0 < span
  {
    SlotSpent(m, sent, origin, span, SlotOf(origin, span, now)) + cost <= limit
  }

  lemma WaitsUnlessFits(w: Counted, m: Meter, cap: nat, origin: int, now: int, sent: seq<Sent>, cost: nat)
    requires Faithful(w, m, cap, origin, now, sent) && CountsExactly(w, m, sent)
    requires origin <= now && cost < SMALL + SMALL
    ensures WaitFor(w, cost, now) == 0 <==> Fits(m, sent, origin, w.span, now, cost, w.limit)
  {
    CountsItsSlot(w, m, cap, origin, now, sent);
    NoWrap(w.used + cost);
  }

  // On every run of checks, what fits goes out and nothing else does: a check is let through if and
  // only if what was let through in the minute that holds it, with its weight and the headroom, stays
  // within the limit, and for an order one more fits its ten seconds, its minute and its day.
  lemma AdmitsExactly(p: Profile, origin: int, ops: seq<Op>, kind: Kind, weight: nat, now: int)
    requires Tame(p, origin, ops + [Ask(kind, weight, now)]) && AsksOnly(ops)
    ensures var t := Play(p, origin, ops);
            && origin <= now
            && (Checked(t.limiter, kind, weight, now).1.Send? <==>
                  && Fits(ByWeight, t.sent, origin, 60 * SECOND, now,
                          weight + Max(p.weightPerMinute * 50 / 1_000, 1), p.weightPerMinute)
                  && (kind.Order? ==>
                        && Fits(ByOrders, t.sent, origin, 10 * SECOND, now, 1, p.ordersPer10s)
                        && Fits(ByOrders, t.sent, origin, 60 * SECOND, now, 1, p.ordersPerMinute)
                        && Fits(ByOrders, t.sent, origin, 86_400 * SECOND, now, 1, p.ordersPerDay)))
  {
    var t, last := Play(p, origin, ops), LastTime(origin, ops);
    TameBefore(p, origin, ops, Ask(kind, weight, now));
    PlayKeeps(p, origin, ops);
    PlayCounts(p, origin, ops);
    RollKeeps(p, origin, last, t, now);
    RollAllCounts(p, origin, last, t, now);
    CheckedWaits(t.limiter, kind, weight, now);
    RoomOf(p, origin, t.(limiter := RollAll(t.limiter, now)), kind, weight, now);
  }

  lemma TameBefore(p: Profile, origin: int, ops: seq<Op>, op: Op)
    requires Tame(p, origin, ops + [op])
    ensures Tame(p, origin, ops) && origin <= LastTime(origin, ops) <= op.now < origin + 10 * SECOND * U32
    ensures op.Ask? ==> op.weight < SMALL
  {
    var all := ops + [op];
    assert all[|ops|] == op && forall i :: 0 <= i < |ops| ==> all[i] == ops[i];
    assert ops != [] ==> all[|ops| - 1].now <= all[|ops|].now;
  }

  lemma RoomOf(p: Profile, origin: int, t: Trail, kind: Kind, weight: nat, now: int)
    requires Modest(p) && weight < SMALL && Kept(p, origin, now, t) && AllCount(t) && origin <= now
    ensures MustWait(t.limiter, kind, weight, now) <==>
            !(&& Fits(ByWeight, t.sent, origin, 60 * SECOND, now,
                      weight + Max(p.weightPerMinute * 50 / 1_000, 1), p.weightPerMinute)
              && (kind.Order? ==>
                    && Fits(ByOrders, t.sent, origin, 10 * SECOND, now, 1, p.ordersPer10s)
                    && Fits(ByOrders, t.sent, origin, 60 * SECOND, now, 1, p.ordersPerMinute)
                    && Fits(ByOrders, t.sent, origin, 86_400 * SECOND, now, 1, p.ordersPerDay)))
  {
    var l := t.limiter;
    HeldBack(p, l, weight);
    assert Headroom(l) == Max(p.weightPerMinute * 50 / 1_000, 1);
    WaitsUnlessFits(l.weight, ByWeight, WeightCap(p), origin, now, t.sent, weight + Headroom(l));
    WaitsUnlessFits(l.orders10s, ByOrders, p.ordersPer10s, origin, now, t.sent, 1);
    WaitsUnlessFits(l.orders1m, ByOrders, p.ordersPerMinute, origin, now, t.sent, 1);
    WaitsUnlessFits(l.orders1d, ByOrders, p.ordersPerDay, origin, now, t.sent, 1);
  }

  // Two requests that fit a fresh limiter together both go out at once.
  lemma TwoThatFitGoOut(origin: int, a: nat, b: nat)
    requires a + b <= 5_700
    ensures var (l, first) := Checked(Fresh(BINANCE_SPOT, origin), Request, a, origin);
            first.Send? && Checked(l, Request, b, origin).1.Send?
  {
    FirstRequest(origin, a);
    var l := Checked(Fresh(BINANCE_SPOT, origin), Request, a, origin).0;
    assert RollAll(l, origin) == l && Headroom(l) == 300;
    CheckedWaits(l, Request, b, origin);
  }

  function Asked(ops: seq<Op>): nat {
    if ops == [] then 0 else Asked(ops[..|ops| - 1]) + if ops[|ops| - 1].Ask? then 1 else 0
  }

  // Every check is let through or counted as deferred, on any run.
  lemma {:induction false} EveryCheckCounted(p: Profile, origin: int, ops: seq<Op>)
    ensures Play(p, origin, ops).limiter.deferred + |Play(p, origin, ops).sent| == Asked(ops)
  {
    if ops != [] {
      EveryCheckCounted(p, origin, ops[..|ops| - 1]);
    }
  }
}
