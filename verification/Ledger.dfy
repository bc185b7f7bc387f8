/** The daily model-cost ledger: amounts are exact US dollars (`real`), the table keeps whole micro-dollars. */
module Ledger {
  import opened Wrappers

  // ---------- amounts ----------

  datatype Rates = Rates(input: real, output: real) {
    ghost predicate Valid() { input >= 0.0 && output >= 0.0 }
  }
  datatype Usage = Usage(input: nat, output: nat)

  function EstimateCostUsd(u: Usage, rates: Rates): real {
    (u.input as real * rates.input + u.output as real * rates.output) / 1000000.0
  }

  /** The nearest integer, halves away from zero. */
  function Nearest(x: real): (r: int)
    ensures -0.5 <= r as real - x <= 0.5
    ensures x >= 0.0 ==> r >= 0
  {
    if x >= 0.0 then (x + 0.5).Floor else -((-x + 0.5).Floor)
  }

  /** `toFixed(6)` of a dollar amount, in micro-dollars. */
  function Micros(usd: real): int { Nearest(usd * 1000000.0) }

  lemma {:induction false} NearestOrder(x: real, y: real)
    requires x <= y
    ensures Nearest(x) <= Nearest(y)
  {
    FloorOrder(x + 0.5, y + 0.5);
    FloorOrder(-y + 0.5, -x + 0.5);
  }

  lemma {:induction false} FloorOrder(x: real, y: real)
    requires x <= y
    ensures x.Floor <= y.Floor
  {}

  lemma {:induction false} NearestOdd(x: real)
    ensures Nearest(-x) == -Nearest(x)
  {}

  lemma {:induction false} NearestShift(x: real, k: int)
    requires x >= 0.0 && x + k as real >= 0.0
    ensures Nearest(x + k as real) == Nearest(x) + k
  {
    assert (x + k as real + 0.5).Floor == (x + 0.5).Floor + k;
  }

  lemma {:induction false} EstimateOrder(a: Usage, b: Usage, rates: Rates)
    requires rates.Valid() && a.input <= b.input && a.output <= b.output
    ensures 0.0 <= EstimateCostUsd(a, rates) <= EstimateCostUsd(b, rates)
  {
    CombinedOrder(a.input as real, b.input as real, rates.input, a.output as real, b.output as real, rates.output);
  }

  lemma {:induction false} CombinedOrder(a: real, b: real, x: real, c: real, d: real, y: real)
    requires 0.0 <= a <= b && 0.0 <= c <= d && x >= 0.0 && y >= 0.0
    ensures 0.0 <= (a * x + c * y) / 1000000.0 <= (b * x + d * y) / 1000000.0
  {
    ProductOrder(a, b, x);
    ProductOrder(c, d, y);
  }

  lemma {:induction false} ProductOrder(a: real, b: real, x: real)
    requires 0.0 <= a <= b && x >= 0.0
    ensures 0.0 <= a * x <= b * x
  {
    assert b * x - a * x == (b - a) * x;
  }

  // ---------- the table ----------

  datatype Day = Day(input: nat, output: nat, micros: nat)
  type Table = map<string, Day>

  function At(t: Table, day: string): Day { if day in t then t[day] else Day(0, 0, 0) }

  function Spent(t: Table, day: string): real { At(t, day).micros as real / 1000000.0 }

  function Upsert(t: Table, day: string, costUsd: real): Table
    requires costUsd >= 0.0
  {
    var row := At(t, day);
    t[day := row.(micros := row.micros + Micros(costUsd))]
  }

  /** None when the row is missing or would go negative. */
  function Adjust(t: Table, day: string, u: Usage, costDelta: real): Option<Table> {
    if day !in t || t[day].micros + Micros(costDelta) < 0 then None
    else Some(t[day := Day(t[day].input + u.input, t[day].output + u.output, t[day].micros + Micros(costDelta))])
  }

  datatype Reservation = Reservation(day: string, reservedUsd: real)

  predicate Admits(t: Table, cap: real, day: string, requestUsd: real) { Spent(t, day) + requestUsd <= cap }

  /** The `daily_cost_usage` table and the operations on it, each one transaction. */
  class CostTable {
    var rows: Table

    constructor ()
      ensures rows == map[]
    {
      rows := map[];
    }

    method UpsertDailyCost(day: string, costUsd: real)
      requires costUsd >= 0.0
      modifies this
      ensures rows == Upsert(old(rows), day, costUsd)
    {
      if day !in rows { rows := rows[day := Day(0, 0, 0)]; }
      rows := rows[day := rows[day].(micros := rows[day].micros + Micros(costUsd))];
    }

    method AdjustDailyCost(day: string, u: Usage, costDelta: real) returns (ok: bool)
      modifies this
      ensures match Adjust(old(rows), day, u, costDelta)
              case None => !ok && rows == old(rows)
              case Some(t) => ok && rows == t
    {
      ok := day in rows && rows[day].micros + Micros(costDelta) >= 0;
      if ok {
        var row := rows[day];
        rows := rows[day := Day(row.input + u.input, row.output + u.output, row.micros + Micros(costDelta))];
      }
    }

    /** Refused exactly when the request does not fit under the cap; otherwise the whole request is on the books. */
    method ReserveModelBudget(cap: real, ratio: real, day: string, requestUsd: real)
      returns (r: Option<Reservation>, warning: bool)
      requires requestUsd >= 0.0
      modifies this
      ensures r == if Admits(old(rows), cap, day, requestUsd) then Some(Reservation(day, requestUsd)) else None
      ensures rows == if r.Some? then Upsert(old(rows), day, requestUsd) else old(rows)
      ensures warning <==> r.Some? && Spent(old(rows), day) + requestUsd >= cap * ratio
    {
      var spent := 0.0;
      if day in rows { spent := rows[day].micros as real / 1000000.0; }
      if spent + requestUsd > cap { return None, false; }
      UpsertDailyCost(day, requestUsd);
      return Some(Reservation(day, requestUsd)), spent + requestUsd >= cap * ratio;
    }

    method SettleModelUsage(r: Reservation, u: Usage, rates: Rates) returns (ok: bool)
      modifies this
      ensures match Adjust(old(rows), r.day, u, EstimateCostUsd(u, rates) - r.reservedUsd)
              case None => !ok && rows == old(rows)
              case Some(t) => ok && rows == t
    {
      ok := AdjustDailyCost(r.day, u, EstimateCostUsd(u, rates) - r.reservedUsd);
    }

    method ReleaseModelReservation(r: Reservation) returns (ok: bool)
      modifies this
      ensures match Adjust(old(rows), r.day, Usage(0, 0), -r.reservedUsd)
              case None => !ok && rows == old(rows)
              case Some(t) => ok && rows == t
    {
      ok := AdjustDailyCost(r.day, Usage(0, 0), -r.reservedUsd);
    }
  }

  // ---------- all clients, interleaved and crashing anywhere ----------

  /** Where a model call stands: waiting for the reply, reply with usage, reply with a not-billed error, or over
      with its reservation kept, settled or released. */
  datatype Phase = Waiting | GotUsage | MustRelease | Kept | Settled | Released

  /** One reserve/call/settle attempt; `billed` is what the provider really metered for it. */
  datatype Client = Client(day: string, bound: Usage, rates: Rates, billed: Option<Usage>, phase: Phase) {
    function ReservedUsd(): real { EstimateCostUsd(bound, rates) }
    function BilledUsd(): real { if billed.Some? then EstimateCostUsd(billed.value, rates) else 0.0 }
    ghost predicate Valid() {
      && rates.Valid()
      && (billed.Some? ==> billed.value.input <= bound.input && billed.value.output <= bound.output)
      && (phase == GotUsage || phase == Settled ==> billed.Some?)
      && (phase == MustRelease || phase == Released ==> billed.None?)
    }
  }

  datatype Reply = WithUsage | WithoutUsage | NotBilled | MaybeBilled

  datatype Event =
    | Reserve(day: string, bound: Usage, rates: Rates)
    | Meter(id: nat, usage: Usage)
    | Answer(id: nat, reply: Reply)
    | Settle(id: nat)
    | Release(id: nat, dbFails: bool)

  datatype Sys = Sys(rows: Table, clients: seq<Client>)

  const EMPTY := Sys(map[], [])

  /** What the provider may do: meter at most the bound, once; report usage only when it metered, and call an
      attempt not billed only when it did not. */
  predicate Honest(c: Client, e: Event) {
    match e
    case Meter(_, u) => (c.phase == Waiting || c.phase == Kept) && c.billed.None? && u.input <= c.bound.input && u.output <= c.bound.output
    case Answer(_, reply) => c.phase == Waiting && (reply == WithUsage ==> c.billed.Some?) && (reply == NotBilled ==> c.billed.None?)
    case Settle(_) => c.phase == GotUsage
    case Release(_, _) => c.phase == MustRelease
    case Reserve(_, _, _) => true
  }

  function AfterReply(reply: Reply): Phase {
    match reply
    case WithUsage => GotUsage
    case NotBilled => MustRelease
    case WithoutUsage => Kept
    case MaybeBilled => Kept
  }

  function WithClient(s: Sys, id: nat, c: Client): Sys
    requires id < |s.clients|
  {
    s.(clients := s.clients[id := c])
  }

  /** One atomic step; an event that is not enabled changes nothing. A client that crashes takes no more steps. */
  function Step(s: Sys, cap: real, e: Event): Sys {
    if e.Reserve? then
      var cost := EstimateCostUsd(e.bound, e.rates);
      if !(e.rates.input >= 0.0 && e.rates.output >= 0.0) || cost < 0.0 || !Admits(s.rows, cap, e.day, cost) then s
      else Sys(Upsert(s.rows, e.day, cost), s.clients + [Client(e.day, e.bound, e.rates, None, Waiting)])
    else if e.id >= |s.clients| || !Honest(s.clients[e.id], e) then s
    else
      var c := s.clients[e.id];
      match e
      case Meter(id, u) => WithClient(s, id, c.(billed := Some(u)))
      case Answer(id, reply) => WithClient(s, id, c.(phase := AfterReply(reply)))
      case Settle(id) =>
        if c.billed.None? then s
        else (match Adjust(s.rows, c.day, c.billed.value, c.BilledUsd() - c.ReservedUsd())
              case None => s
              case Some(t) => WithClient(s.(rows := t), id, c.(phase := Settled)))
      case Release(id, dbFails) =>
        if dbFails then WithClient(s, id, c.(phase := Kept))
        else (match Adjust(s.rows, c.day, Usage(0, 0), -c.ReservedUsd())
              case None => s
              case Some(t) => WithClient(s.(rows := t), id, c.(phase := Released)))
  }

  function Run(cap: real, es: seq<Event>): Sys {
    if es == [] then EMPTY else Step(Run(cap, es[..|es| - 1]), cap, es[|es| - 1])
  }

  // ---------- sums over clients ----------

  ghost function Sum(cs: seq<Client>, f: Client -> real): real {
    if cs == [] then 0.0 else Sum(cs[..|cs| - 1], f) + f(cs[|cs| - 1])
  }

  lemma {:induction false} SumAppend(cs: seq<Client>, c: Client, f: Client -> real)
    ensures Sum(cs + [c], f) == Sum(cs, f) + f(c)
  {
    assert (cs + [c])[..|cs|] == cs;
  }

  lemma {:induction false} SumReplace(cs: seq<Client>, id: nat, c: Client, f: Client -> real)
    requires id < |cs|
    ensures Sum(cs[id := c], f) == Sum(cs, f) - f(cs[id]) + f(c)
  {
    var n := |cs| - 1;
    if id == n {
      assert cs[id := c][..n] == cs[..n];
    } else {
      SumReplace(cs[..n], id, c, f);
      assert cs[id := c][..n] == cs[..n][id := c];
    }
  }

  lemma {:induction false} SumOrder(cs: seq<Client>, f: Client -> real, g: Client -> real)
    requires forall c :: c in cs ==> f(c) <= g(c)
    ensures Sum(cs, f) <= Sum(cs, g)
  {
    if cs != [] {
      assert cs[|cs| - 1] in cs;
      SumOrder(cs[..|cs| - 1], f, g);
    }
  }

  lemma {:induction false} SumMember(cs: seq<Client>, id: nat, f: Client -> real)
    requires id < |cs| && forall c :: c in cs ==> f(c) >= 0.0
    ensures Sum(cs, f) >= f(cs[id])
  {
    var n := |cs| - 1;
    assert cs[n] in cs;
    if id < n { SumMember(cs[..n], id, f); } else { SumNonNegative(cs[..n], f); }
  }

  lemma {:induction false} SumNonNegative(cs: seq<Client>, f: Client -> real)
    requires forall c :: c in cs ==> f(c) >= 0.0
    ensures Sum(cs, f) >= 0.0
  {
    if cs != [] {
      assert cs[|cs| - 1] in cs;
      SumNonNegative(cs[..|cs| - 1], f);
    }
  }

  // ---------- what every run keeps ----------

  /** The micro-dollars a client has on the books. */
  function Booked(c: Client): int {
    match c.phase
    case Released => 0
    case Settled => Micros(c.ReservedUsd()) + Micros(c.BilledUsd() - c.ReservedUsd())
    case _ => Micros(c.ReservedUsd())
  }

  function On(day: string, f: Client -> real): Client -> real { (c: Client) => if c.day == day then f(c) else 0.0 }

  const BOOKED: Client -> real := (c: Client) => Booked(c) as real
  const INPUTS: Client -> real := (c: Client) => if c.phase == Settled && c.billed.Some? then c.billed.value.input as real else 0.0
  const OUTPUTS: Client -> real := (c: Client) => if c.phase == Settled && c.billed.Some? then c.billed.value.output as real else 0.0

  ghost predicate DayOk(s: Sys, cap: real, day: string) {
    var row := At(s.rows, day);
    && row.micros as real == Sum(s.clients, On(day, BOOKED))
    && row.input as real == Sum(s.clients, On(day, INPUTS))
    && row.output as real == Sum(s.clients, On(day, OUTPUTS))
    && row.micros <= Micros(cap)
  }

  ghost predicate Inv(s: Sys, cap: real) {
    && (forall id :: 0 <= id < |s.clients| ==> s.clients[id].Valid() && s.clients[id].day in s.rows)
    && (forall day: string :: DayOk(s, cap, day))
  }

  /** What a valid client has booked: between nothing and its reservation, and within a micro-dollar of its bill
      once settled, within half of one of its reservation before. */
  lemma {:induction false} BookedBounds(c: Client)
    requires c.Valid()
    ensures 0 <= Booked(c) <= Micros(c.ReservedUsd())
    ensures 0.0 <= c.BilledUsd() <= c.ReservedUsd()
    ensures c.phase == Settled ==> -1.0 <= Booked(c) as real - c.BilledUsd() * 1000000.0 <= 1.0
    ensures c.phase != Settled && c.phase != Released ==> -0.5 <= Booked(c) as real - c.ReservedUsd() * 1000000.0 <= 0.5
    ensures Booked(c) as real >= c.BilledUsd() * 1000000.0 - 1.0
  {
    var r, b := c.ReservedUsd() * 1000000.0, c.BilledUsd() * 1000000.0;
    EstimateOrder(if c.billed.Some? then c.billed.value else Usage(0, 0), c.bound, c.rates);
    assert (c.BilledUsd() - c.ReservedUsd()) * 1000000.0 == b - r;
    NearestOrder(b - r, 0.0);
    NearestOrder(-r, b - r);
    NearestOdd(r);
  }

  lemma {:induction false} DayOkAfter(s: Sys, s': Sys, cap: real, id: nat, c: Client, day: string)
    requires DayOk(s, cap, day) && id < |s.clients| && s'.clients == s.clients[id := c] && c.day == s.clients[id].day
    requires day != c.day ==> At(s'.rows, day) == At(s.rows, day)
    requires day == c.day ==> var (old', new') := (s.clients[id], c); var (a, b) := (At(s.rows, day), At(s'.rows, day));
      && b.micros == a.micros - Booked(old') + Booked(new') <= Micros(cap)
      && b.input as real == a.input as real - INPUTS(old') + INPUTS(new')
      && b.output as real == a.output as real - OUTPUTS(old') + OUTPUTS(new')
    ensures DayOk(s', cap, day)
  {
    SumReplace(s.clients, id, c, On(day, BOOKED));
    SumReplace(s.clients, id, c, On(day, INPUTS));
    SumReplace(s.clients, id, c, On(day, OUTPUTS));
  }

  /** A client's own booking is on its day's row, so taking off no more than that is never rejected. */
  lemma {:induction false} NeverRejected(s: Sys, cap: real, id: nat)
    requires Inv(s, cap) && id < |s.clients|
    ensures var c := s.clients[id]; At(s.rows, c.day).micros >= Booked(c)
    ensures var c := s.clients[id]; c.phase == GotUsage ==> Adjust(s.rows, c.day, c.billed.value, c.BilledUsd() - c.ReservedUsd()).Some?
    ensures var c := s.clients[id]; c.phase == MustRelease ==> Adjust(s.rows, c.day, Usage(0, 0), -c.ReservedUsd()).Some?
  {
    var c := s.clients[id];
    forall d | d in s.clients ensures On(c.day, BOOKED)(d) >= 0.0 { BookedBounds(d); }
    SumMember(s.clients, id, On(c.day, BOOKED));
    assert DayOk(s, cap, c.day);
    if c.phase == GotUsage {
      SettleBooks(c);
      BookedBounds(c.(phase := Settled));
    } else if c.phase == MustRelease {
      ReleaseBooks(c);
    }
  }

  lemma {:induction false} AdmittedFits(s: Sys, cap: real, day: string, cost: real)
    requires cost >= 0.0 && Admits(s.rows, cap, day, cost)
    ensures At(s.rows, day).micros + Micros(cost) <= Micros(cap)
  {
    var spent := At(s.rows, day).micros;
    assert cost * 1000000.0 <= cap * 1000000.0 - spent as real;
    NearestOrder(cost * 1000000.0, cap * 1000000.0 - spent as real);
    NearestShift(cap * 1000000.0 - spent as real, spent);
  }

  lemma {:induction false} ReserveKeepsInv(s: Sys, cap: real, e: Event)
    requires Inv(s, cap) && e.Reserve?
    ensures Inv(Step(s, cap, e), cap)
  {
    var s' := Step(s, cap, e);
    if s' != s {
      var cost := EstimateCostUsd(e.bound, e.rates);
      var c := Client(e.day, e.bound, e.rates, None, Waiting);
      AdmittedFits(s, cap, e.day, cost);
      assert s' == Sys(Upsert(s.rows, e.day, cost), s.clients + [c]);
      forall day: string ensures DayOk(s', cap, day) { ReservedDayOk(s, cap, c, cost, day); }
    }
  }

  lemma {:induction false} ReservedDayOk(s: Sys, cap: real, c: Client, cost: real, day: string)
    requires DayOk(s, cap, day) && c.phase == Waiting && cost == c.ReservedUsd() >= 0.0 && At(s.rows, c.day).micros + Micros(cost) <= Micros(cap)
    ensures DayOk(Sys(Upsert(s.rows, c.day, cost), s.clients + [c]), cap, day)
  {
    SumAppend(s.clients, c, On(day, BOOKED));
    SumAppend(s.clients, c, On(day, INPUTS));
    SumAppend(s.clients, c, On(day, OUTPUTS));
  }

  lemma {:induction false} StepKeepsInv(s: Sys, cap: real, e: Event)
    requires Inv(s, cap)
    ensures Inv(Step(s, cap, e), cap)
  {
    var s' := Step(s, cap, e);
    if e.Reserve? {
      ReserveKeepsInv(s, cap, e);
    } else if s' != s {
      var c' := s'.clients[e.id];
      OwnRow(s, cap, e);
      forall day: string ensures DayOk(s', cap, day) {
        assert DayOk(s, cap, day);
        DayOkAfter(s, s', cap, e.id, c', day);
      }
    }
  }

  /** Only this client and its day's row change, in step with what it has booked. */
  ghost predicate OwnStep(s: Sys, s': Sys, cap: real, id: nat, c': Client)
    requires id < |s.clients|
  {
    var c := s.clients[id];
    var a, b := At(s.rows, c.day), At(s'.rows, c.day);
    && s'.clients == s.clients[id := c'] && c'.Valid() && c'.day == c.day
    && s.rows.Keys <= s'.rows.Keys && (forall day: string :: day != c.day ==> At(s'.rows, day) == At(s.rows, day))
    && b.micros == a.micros - Booked(c) + Booked(c') <= Micros(cap)
    && b.input as real == a.input as real - INPUTS(c) + INPUTS(c')
    && b.output as real == a.output as real - OUTPUTS(c) + OUTPUTS(c')
  }

  lemma {:induction false} QuietStep(s: Sys, cap: real, id: nat, c': Client)
    requires Inv(s, cap) && id < |s.clients|
    requires var c := s.clients[id]; c'.Valid() && c'.day == c.day && c'.bound == c.bound && c'.rates == c.rates
    requires var c := s.clients[id]; c == c' || (c.phase !in {Settled, Released} && c'.phase !in {Settled, Released})
    ensures OwnStep(s, WithClient(s, id, c'), cap, id, c')
  {
    assert DayOk(s, cap, s.clients[id].day);
  }

  lemma {:induction false} SettleStep(s: Sys, cap: real, id: nat)
    requires Inv(s, cap) && id < |s.clients| && s.clients[id].phase == GotUsage
    ensures OwnStep(s, Step(s, cap, Settle(id)), cap, id, s.clients[id].(phase := Settled))
  {
    assert DayOk(s, cap, s.clients[id].day);
    NeverRejected(s, cap, id);
    SettleBooks(s.clients[id]);
  }

  lemma {:induction false} ReleaseStep(s: Sys, cap: real, id: nat)
    requires Inv(s, cap) && id < |s.clients| && s.clients[id].phase == MustRelease
    ensures OwnStep(s, Step(s, cap, Release(id, false)), cap, id, s.clients[id].(phase := Released))
  {
    assert DayOk(s, cap, s.clients[id].day);
    NeverRejected(s, cap, id);
    ReleaseBooks(s.clients[id]);
  }

  /** What a client's own step does to its day's row. */
  lemma {:induction false} OwnRow(s: Sys, cap: real, e: Event)
    requires Inv(s, cap) && !e.Reserve? && e.id < |s.clients| && Honest(s.clients[e.id], e)
    ensures var s' := Step(s, cap, e); |s'.clients| == |s.clients| && OwnStep(s, s', cap, e.id, s'.clients[e.id])
  {
    match e
    case Settle(id) => SettleStep(s, cap, id);
    case Release(id, dbFails) =>
      if dbFails { QuietStep(s, cap, id, s.clients[id].(phase := Kept)); } else { ReleaseStep(s, cap, id); }
    case Meter(id, u) => QuietStep(s, cap, id, s.clients[id].(billed := Some(u)));
    case Answer(id, reply) => QuietStep(s, cap, id, s.clients[id].(phase := AfterReply(reply)));
  }

  lemma {:induction false} SettleBooks(c: Client)
    requires c.Valid() && c.phase == GotUsage
    ensures Micros(c.BilledUsd() - c.ReservedUsd()) == Booked(c.(phase := Settled)) - Booked(c) <= 0
  {
    BookedBounds(c.(phase := Settled));
  }

  lemma {:induction false} ReleaseBooks(c: Client)
    requires c.Valid() && c.phase == MustRelease
    ensures Micros(-c.ReservedUsd()) == Booked(c.(phase := Released)) - Booked(c) <= 0
  {
    BookedBounds(c);
    assert -c.ReservedUsd() * 1000000.0 == -(c.ReservedUsd() * 1000000.0);
    NearestOdd(c.ReservedUsd() * 1000000.0);
  }

  /** Conservation and the cap, in every interleaving: each day's total is the sum of what its clients have
      booked, its token columns are the settled usage, and it never exceeds the cap as rounded to the table. */
  lemma {:induction false} RunKeepsInv(cap: real, es: seq<Event>)
    requires cap >= 0.0
    ensures Inv(Run(cap, es), cap)
  {
    if es != [] {
      RunKeepsInv(cap, es[..|es| - 1]);
      StepKeepsInv(Run(cap, es[..|es| - 1]), cap, es[|es| - 1]);
    }
  }

  // ---------- what it means in dollars ----------

  /** The day's cost never exceeds the cap in any run exactly when the cap does not round up. */
  lemma {:induction false} CapHoldsIff(cap: real)
    requires cap >= 0.0
    ensures (forall es: seq<Event>, day: string :: Spent(Run(cap, es).rows, day) <= cap) <==> Micros(cap) as real <= cap * 1000000.0
  {
    if Micros(cap) as real <= cap * 1000000.0 {
      forall es: seq<Event>, day: string ensures Spent(Run(cap, es).rows, day) <= cap {
        RunKeepsInv(cap, es);
        assert DayOk(Run(cap, es), cap, day);
      }
    } else {
      var es := [Reserve("2026-01-01", Usage(1, 0), Rates(cap * 1000000.0, 0.0))];
      assert es[..0] == [];
      assert Run(cap, []) == EMPTY;
      assert EstimateCostUsd(es[0].bound, es[0].rates) == cap;
      assert Run(cap, es) == Step(EMPTY, cap, es[0]);
      assert Spent(Run(cap, es).rows, "2026-01-01") > cap;
    }
  }

  /** Settled bills plus outstanding and kept reservations. */
  const OWED: Client -> real :=
    (c: Client) => match c.phase case Released => 0.0 case Settled => c.BilledUsd() * 1000000.0 case _ => c.ReservedUsd() * 1000000.0
  const SLACK: Client -> real := (c: Client) => match c.phase case Released => 0.0 case Settled => 1.0 case _ => 0.5
  const BILLED: Client -> real := (c: Client) => c.BilledUsd() * 1000000.0

  lemma {:induction false} SumSub(cs: seq<Client>, f: Client -> real, g: Client -> real, h: Client -> real)
    requires forall c :: c in cs ==> h(c) == f(c) - g(c)
    ensures Sum(cs, h) == Sum(cs, f) - Sum(cs, g)
  {
    if cs != [] {
      assert cs[|cs| - 1] in cs;
      SumSub(cs[..|cs| - 1], f, g, h);
    }
  }

  /** The total is what is owed, up to one micro-dollar for each settled and half of one for each open attempt. */
  lemma {:induction false} TotalIsOwed(cap: real, es: seq<Event>, day: string)
    requires cap >= 0.0
    ensures var s := Run(cap, es); var total := At(s.rows, day).micros as real;
      -Sum(s.clients, On(day, SLACK)) <= total - Sum(s.clients, On(day, OWED)) <= Sum(s.clients, On(day, SLACK))
  {
    var s := Run(cap, es);
    RunKeepsInv(cap, es);
    assert DayOk(s, cap, day);
    var booked, owed, slack := On(day, BOOKED), On(day, OWED), On(day, SLACK);
    var gap: Client -> real := (c: Client) => booked(c) - owed(c);
    var minus: Client -> real := (c: Client) => 0.0 - slack(c);
    var zero: Client -> real := (c: Client) => 0.0;
    SumSub(s.clients, booked, owed, gap);
    SumSub(s.clients, zero, slack, minus);
    SumSub(s.clients, zero, zero, zero);
    forall c | c in s.clients ensures minus(c) <= gap(c) <= slack(c) { BookedBounds(c); }
    SumOrder(s.clients, gap, slack);
    SumOrder(s.clients, minus, gap);
  }

  /** The total is never below what the provider billed by more than one micro-dollar for each attempt. */
  lemma {:induction false} TotalCoversBills(cap: real, es: seq<Event>, day: string)
    requires cap >= 0.0
    ensures var s := Run(cap, es); At(s.rows, day).micros as real >= Sum(s.clients, On(day, BILLED)) - Sum(s.clients, On(day, (c: Client) => 1.0))
  {
    var s := Run(cap, es);
    RunKeepsInv(cap, es);
    assert DayOk(s, cap, day);
    var billed, one := On(day, BILLED), On(day, (c: Client) => 1.0);
    var low: Client -> real := (c: Client) => billed(c) - one(c);
    SumSub(s.clients, billed, one, low);
    forall c | c in s.clients ensures low(c) <= On(day, BOOKED)(c) { BookedBounds(c); }
    SumOrder(s.clients, low, On(day, BOOKED));
  }

  // ---------- what becomes of an attempt ----------

  /** In any run, a request is taken on exactly when it fits under the cap on top of what the day's attempts have on the
      books; then all of it is booked and the attempt is waiting, otherwise nothing changes. */
  lemma {:induction false} ReserveIff(cap: real, es: seq<Event>, day: string, bound: Usage, rates: Rates)
    requires cap >= 0.0 && rates.Valid()
    ensures var s, s' := Run(cap, es), Run(cap, es + [Reserve(day, bound, rates)]); var cost := EstimateCostUsd(bound, rates);
      if Sum(s.clients, On(day, BOOKED)) / 1000000.0 + cost <= cap
      then s'.clients == s.clients + [Client(day, bound, rates, None, Waiting)] && At(s'.rows, day).micros == At(s.rows, day).micros + Micros(cost)
      else s' == s
  {
    RunKeepsInv(cap, es);
    assert DayOk(Run(cap, es), cap, day);
    RunAppend(cap, es, Reserve(day, bound, rates));
    EstimateOrder(Usage(0, 0), bound, rates);
  }

  /** An attempt that was not billed and says so is released, and its whole reservation comes off the day. */
  lemma {:induction false} NotBilledReleases(cap: real, es: seq<Event>, id: nat)
    requires cap >= 0.0 && id < |Run(cap, es).clients| && Run(cap, es).clients[id].phase == Waiting && Run(cap, es).clients[id].billed.None?
    ensures var s, s' := Run(cap, es), Run(cap, es + [Answer(id, NotBilled)] + [Release(id, false)]); var c := s.clients[id];
      && s'.clients == s.clients[id := c.(phase := Released)]
      && At(s'.rows, c.day) == At(s.rows, c.day).(micros := At(s'.rows, c.day).micros)
      && At(s'.rows, c.day).micros == At(s.rows, c.day).micros - Micros(c.ReservedUsd())
  {
    RunAppend(cap, es, Answer(id, NotBilled));
    RunAppend(cap, es + [Answer(id, NotBilled)], Release(id, false));
    RunKeepsInv(cap, es + [Answer(id, NotBilled)]);
    NeverRejected(Run(cap, es + [Answer(id, NotBilled)]), cap, id);
    NearestOdd(Run(cap, es).clients[id].ReservedUsd() * 1000000.0);
    ReleaseBooks(Run(cap, es).clients[id].(phase := MustRelease));
  }

  /** One that reports its usage is settled: the usage is on the day's token columns and the total moves by the rounded
      difference between bill and reservation. */
  lemma {:induction false} UsageSettles(cap: real, es: seq<Event>, id: nat)
    requires cap >= 0.0 && id < |Run(cap, es).clients| && Run(cap, es).clients[id].phase == Waiting && Run(cap, es).clients[id].billed.Some?
    ensures var s, s' := Run(cap, es), Run(cap, es + [Answer(id, WithUsage)] + [Settle(id)]); var c, row := s.clients[id], At(s.rows, s.clients[id].day);
      && s'.clients == s.clients[id := c.(phase := Settled)]
      && At(s'.rows, c.day).input == row.input + c.billed.value.input && At(s'.rows, c.day).output == row.output + c.billed.value.output
      && At(s'.rows, c.day).micros == row.micros + Micros(c.BilledUsd() - c.ReservedUsd())
  {
    RunAppend(cap, es, Answer(id, WithUsage));
    RunAppend(cap, es + [Answer(id, WithUsage)], Settle(id));
    RunKeepsInv(cap, es + [Answer(id, WithUsage)]);
    NeverRejected(Run(cap, es + [Answer(id, WithUsage)]), cap, id);
  }

  /** One whose bill is not known keeps its reservation on the books for good. */
  lemma {:induction false} UnknownBillKeeps(cap: real, es: seq<Event>, id: nat, reply: Reply, more: seq<Event>)
    requires id < |Run(cap, es).clients| && Run(cap, es).clients[id].phase == Waiting && (reply == WithoutUsage || reply == MaybeBilled)
    ensures Run(cap, es + [Answer(id, reply)]).rows == Run(cap, es).rows
    ensures var s' := Run(cap, es + [Answer(id, reply)] + more); id < |s'.clients| && s'.clients[id].phase == Kept && Booked(s'.clients[id]) == Booked(Run(cap, es).clients[id])
  {
    RunAppend(cap, es, Answer(id, reply));
    var from := es + [Answer(id, reply)];
    if more == [] {
      assert from + more == from;
    } else {
      var front, e := more[..|more| - 1], more[|more| - 1];
      UnknownBillKeeps(cap, es, id, reply, front);
      assert from + more == (from + front) + [e];
      RunAppend(cap, from + front, e);
      KeptStays(Run(cap, from + front), cap, e, id);
    }
  }

  lemma {:induction false} KeptStays(s: Sys, cap: real, e: Event, id: nat)
    requires id < |s.clients| && s.clients[id].phase == Kept
    ensures var s' := Step(s, cap, e); id < |s'.clients| && s'.clients[id].phase == Kept && Booked(s'.clients[id]) == Booked(s.clients[id])
  {}

  // ---------- when no rounding is lost ----------

  ghost predicate Whole(x: real) { x.Floor as real == x }

  ghost predicate WholeRates(rates: Rates) { Whole(rates.input) && Whole(rates.output) }

  lemma {:induction false} ProductAsReal(n: nat, k: int)
    ensures n as real * k as real == (n * k) as real
  {
    if n > 0 {
      ProductAsReal(n - 1, k);
      assert (n - 1) * k + k == n * k;
    }
  }

  lemma {:induction false} WholeProduct(n: nat, x: real)
    requires Whole(x)
    ensures Whole(n as real * x) && n as real * x == (n * x.Floor) as real
  {
    ProductAsReal(n, x.Floor);
  }

  lemma {:induction false} WholeEstimate(u: Usage, rates: Rates)
    requires WholeRates(rates)
    ensures Whole(EstimateCostUsd(u, rates) * 1000000.0)
  {
    WholeProduct(u.input, rates.input);
    WholeProduct(u.output, rates.output);
    assert EstimateCostUsd(u, rates) * 1000000.0 == (u.input * rates.input.Floor + u.output * rates.output.Floor) as real;
  }

  /** With whole-dollar rates the total is exactly what is owed, and never below what was billed. */
  lemma {:induction false} WholeRatesAreExact(cap: real, es: seq<Event>, day: string)
    requires cap >= 0.0 && forall c :: c in Run(cap, es).clients ==> WholeRates(c.rates)
    ensures var s := Run(cap, es); At(s.rows, day).micros as real == Sum(s.clients, On(day, OWED)) >= Sum(s.clients, On(day, BILLED))
  {
    var s := Run(cap, es);
    RunKeepsInv(cap, es);
    assert DayOk(s, cap, day);
    forall c | c in s.clients ensures On(day, BOOKED)(c) == On(day, OWED)(c) >= On(day, BILLED)(c) {
      BookedBounds(c);
      BookedExact(c);
    }
    SumOrder(s.clients, On(day, BOOKED), On(day, OWED));
    SumOrder(s.clients, On(day, OWED), On(day, BOOKED));
    SumOrder(s.clients, On(day, BILLED), On(day, OWED));
  }

  lemma {:induction false} NearestWhole(x: real, k: int)
    requires x == k as real
    ensures Nearest(x) == k
  {}

  lemma {:induction false} BookedExact(c: Client)
    requires c.Valid() && WholeRates(c.rates)
    ensures BOOKED(c) == OWED(c)
  {
    WholeEstimate(c.bound, c.rates);
    var r, b := c.ReservedUsd() * 1000000.0, c.BilledUsd() * 1000000.0;
    NearestWhole(r, r.Floor);
    if c.phase == Settled {
      WholeEstimate(c.billed.value, c.rates);
      assert (c.BilledUsd() - c.ReservedUsd()) * 1000000.0 == b - r;
      NearestWhole(b - r, b.Floor - r.Floor);
    }
  }

  /** A settled attempt that leaves less on the books than was billed. */
  ghost predicate Undercounts(c: Client) {
    c.Valid() && c.phase == Settled && (Booked(c) as real < c.BilledUsd() * 1000000.0)
  }

  /** Token counts of one kind, reserved and billed, whose two roundings together lose part of the bill. */
  ghost predicate Loses(rate: real, i: nat, j: nat) {
    j <= i && Nearest(i as real * rate) as real + Nearest(j as real * rate - i as real * rate) as real < j as real * rate
  }

  lemma {:induction false} LosesUndercounts(c: Client, rate: real, i: nat, j: nat)
    requires Loses(rate, i, j) && c.rates.Valid() && c.phase == Settled
    requires || (rate == c.rates.input && c.bound == Usage(i, 0) && c.billed == Some(Usage(j, 0)))
             || (rate == c.rates.output && c.bound == Usage(0, i) && c.billed == Some(Usage(0, j)))
    ensures Undercounts(c)
  {
    var r, b := i as real * rate, j as real * rate;
    assert c.ReservedUsd() * 1000000.0 == r && c.BilledUsd() * 1000000.0 == b;
    assert (c.BilledUsd() - c.ReservedUsd()) * 1000000.0 == b - r;
  }

  /** Some settled attempt undercounts exactly when a rate is not a whole number of dollars per million tokens. */
  lemma {:induction false} UndercountingClientIff(rates: Rates)
    requires rates.Valid()
    ensures (exists c: Client :: c.rates == rates && Undercounts(c)) <==> !WholeRates(rates)
  {
    if WholeRates(rates) {
      forall c: Client | c.rates == rates && c.Valid() && c.phase == Settled ensures !Undercounts(c) { BookedExact(c); }
    } else if !Whole(rates.input) {
      var i, j := LosingCounts(rates.input);
      LosesUndercounts(Client("2026-01-01", Usage(i, 0), rates, Some(Usage(j, 0)), Settled), rates.input, i, j);
    } else {
      var i, j := LosingCounts(rates.output);
      LosesUndercounts(Client("2026-01-01", Usage(0, i), rates, Some(Usage(0, j)), Settled), rates.output, i, j);
    }
  }

  /** Every reservation of the run is made at these rates. */
  ghost predicate UsesRates(es: seq<Event>, rates: Rates) { forall e :: e in es && e.Reserve? ==> e.rates == rates }

  lemma {:induction false} ClientsUseRates(cap: real, es: seq<Event>, rates: Rates)
    requires UsesRates(es, rates)
    ensures forall c :: c in Run(cap, es).clients ==> c.rates == rates
  {
    if es != [] {
      var n := |es| - 1;
      assert es[n] in es;
      ClientsUseRates(cap, es[..n], rates);
      StepUsesRates(Run(cap, es[..n]), cap, es[n], rates);
    }
  }

  lemma {:induction false} StepUsesRates(s: Sys, cap: real, e: Event, rates: Rates)
    requires (forall c :: c in s.clients ==> c.rates == rates) && (e.Reserve? ==> e.rates == rates)
    ensures forall c :: c in Step(s, cap, e).clients ==> c.rates == rates
  {
    var s' := Step(s, cap, e);
    forall k | 0 <= k < |s'.clients| ensures s'.clients[k].rates == rates {
      if k < |s.clients| { assert s.clients[k] in s.clients; }
    }
  }

  /** The day's total is at least what the provider billed that day. */
  ghost predicate CoversBills(s: Sys, day: string) { At(s.rows, day).micros as real >= Sum(s.clients, On(day, BILLED)) }

  /** One attempt from reservation to settlement. */
  function OneAttempt(c: Client): seq<Event>
    requires c.billed.Some?
  {
    [Reserve(c.day, c.bound, c.rates), Meter(0, c.billed.value), Answer(0, WithUsage), Settle(0)]
  }

  lemma {:induction false} RunAppend(cap: real, es: seq<Event>, e: Event)
    ensures Run(cap, es + [e]) == Step(Run(cap, es), cap, e)
  {
    assert (es + [e])[..|es|] == es;
  }

  /** Under a cap that just admits it the attempt settles. */
  lemma {:induction false} AttemptSettles(c: Client)
    requires c.Valid() && c.phase == Settled
    ensures Run(c.ReservedUsd(), OneAttempt(c)).clients == [c]
  {
    var cap, es := c.ReservedUsd(), OneAttempt(c);
    BookedBounds(c);
    RunAppend(cap, [], es[0]);
    RunAppend(cap, [es[0]], es[1]);
    RunAppend(cap, [es[0], es[1]], es[2]);
    RunAppend(cap, [es[0], es[1], es[2]], es[3]);
    assert [] + [es[0]] == [es[0]] && [es[0]] + [es[1]] == [es[0], es[1]] && [es[0], es[1]] + [es[2]] == [es[0], es[1], es[2]];
    assert [es[0], es[1], es[2]] + [es[3]] == es;
    AttemptReserved(c);
    var s := Run(cap, [es[0], es[1], es[2]]);
    assert s.clients == [c.(phase := GotUsage)];
    RunKeepsInv(cap, [es[0], es[1], es[2]]);
    NeverRejected(s, cap, 0);
  }

  lemma {:induction false} AttemptReserved(c: Client)
    requires c.Valid() && c.phase == Settled && c.ReservedUsd() >= 0.0
    ensures Step(EMPTY, c.ReservedUsd(), OneAttempt(c)[0]).clients == [c.(billed := None, phase := Waiting)]
  {}

  /** The day's total is never below what was billed, in any run at these rates under any cap, exactly when both
      rates are whole numbers of dollars per million tokens. */
  lemma {:induction false} UndercountIff(rates: Rates)
    requires rates.Valid()
    ensures (forall cap: real, es: seq<Event>, day: string :: cap >= 0.0 && UsesRates(es, rates) ==> CoversBills(Run(cap, es), day))
       <==> WholeRates(rates)
  {
    if WholeRates(rates) {
      forall cap: real, es: seq<Event>, day: string | cap >= 0.0 && UsesRates(es, rates) ensures CoversBills(Run(cap, es), day) {
        ClientsUseRates(cap, es, rates);
        WholeRatesAreExact(cap, es, day);
      }
    } else {
      UndercountingClientIff(rates);
      var c: Client :| c.rates == rates && Undercounts(c);
      AttemptUndercounts(c);
      assert UsesRates(OneAttempt(c), rates);
    }
  }

  lemma {:induction false} AttemptUndercounts(c: Client)
    requires Undercounts(c)
    ensures c.ReservedUsd() >= 0.0 && !CoversBills(Run(c.ReservedUsd(), OneAttempt(c)), c.day)
  {
    var cap, es := c.ReservedUsd(), OneAttempt(c);
    BookedBounds(c);
    AttemptSettles(c);
    RunKeepsInv(cap, es);
    assert DayOk(Run(cap, es), cap, c.day);
    SumAppend([], c, On(c.day, BOOKED));
    SumAppend([], c, On(c.day, BILLED));
    assert [] + [c] == [c];
  }

  lemma {:induction false} LosingCounts(rate: real) returns (i: nat, j: nat)
    requires rate >= 0.0 && !Whole(rate)
    ensures Loses(rate, i, j)
  {
    var f := rate - rate.Floor as real;
    if f < 0.5 {
      i, j := 1, 1;
      assert Nearest(rate) == rate.Floor && Nearest(rate - rate) == 0;
    } else if f < 0.75 {
      i, j := 2, 1;
      LosesOneOfTwo(rate);
    } else {
      var g := 1.0 - f;
      var ng;
      i, ng := JustOverHalf(g, Halves(g));
      j := i;
      LosesAll(rate, g, i, ng);
    }
  }

  ghost function Halves(g: real): (z: real)
    requires g > 0.0
    ensures z * g == 0.5
  {
    0.5 / g
  }

  lemma {:induction false} LosesOneOfTwo(rate: real)
    requires rate >= 0.0 && 0.5 <= rate - rate.Floor as real < 0.75
    ensures Loses(rate, 2, 1)
  {
    var m := rate.Floor;
    assert (2.0 * rate + 0.5).Floor == 2 * m + 1;
    assert (rate + 0.5).Floor == m + 1;
    assert 1.0 * rate - 2.0 * rate == -rate;
  }

  lemma {:induction false} LosesAll(rate: real, g: real, n: nat, ng: real)
    requires rate >= 0.0 && g == 1.0 - (rate - rate.Floor as real) && ng == n as real * g && 0.5 < ng < 1.0
    ensures Loses(rate, n, n)
  {
    var whole := rate.Floor + 1;
    var x := n as real * rate;
    ProductOrder(0.0, n as real, rate);
    Distribute(n as real, whole as real, g, (n * whole) as real, ng, x);
    JustAbove(x, n * whole - 1);
  }

  lemma {:induction false} Distribute(a: real, b: real, c: real, ab: real, ac: real, r: real)
    requires ab == a * b && ac == a * c && r == a * (b - c)
    ensures r == ab - ac
  {}

  lemma {:induction false} JustAbove(x: real, k: int)
    requires x >= 0.0 && k as real < x < k as real + 0.5
    ensures Nearest(x) == k && Nearest(x - x) == 0
  {}

  lemma {:induction false} ProductStrict(a: real, b: real, x: real, ax: real, bx: real)
    requires a < b && x > 0.0 && ax == a * x && bx == b * x
    ensures ax < bx
  {
    assert b * x - a * x == (b - a) * x;
  }

  lemma {:induction false} JustOverHalf(g: real, z: real) returns (n: nat, ng: real)
    requires 0.0 < g <= 0.25 && z * g == 0.5
    ensures ng == n as real * g && 0.5 < ng < 1.0
  {
    if z < 0.0 { ProductStrict(z, 0.0, g, 0.5, 0.0); }
    n := z.Floor + 1;
    ng := n as real * g;
    Between(g, z, n as real, ng);
  }

  lemma {:induction false} Between(g: real, z: real, x: real, xg: real)
    requires 0.0 < g <= 0.25 && z * g == 0.5 && z < x <= z + 1.0 && xg == x * g
    ensures 0.5 < xg < 1.0
  {
    ProductStrict(z, x, g, 0.5, xg);
    Spread(z, 2.0, g);
    ProductStrict(x, z + 2.0, g, xg, 0.5 + 2.0 * g);
  }

  lemma {:induction false} Spread(a: real, b: real, c: real)
    ensures (a + b) * c == a * c + b * c
  {}
}
