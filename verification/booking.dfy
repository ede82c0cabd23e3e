/**
 * The arithmetic shared by the trip form and the archive form: the four fixed
 * cabin tiers, passengers and ticket revenue per tier, and the trip duration
 * in days.
 */
module Booking {
  import opened Catalog

  /** The four cabin tiers every form works with. */
  datatype Tier = Deluxe | PremiumGold | PremiumSilver | Normal

  /** The category name each tier is looked up by. */
  function TierName(t: Tier): string
  {
    match t
    case Deluxe => "Deluxe"
    case PremiumGold => "Premium Gold"
    case PremiumSilver => "Premium Silver"
    case Normal => "Normal"
  }

  /** One integer per tier: rooms booked, passengers, prices or capacities. */
  datatype PerTier = PerTier(deluxe: int, premiumGold: int, premiumSilver: int, normal: int)
  {
    function Get(t: Tier): int
    {
      match t
      case Deluxe => deluxe
      case PremiumGold => premiumGold
      case PremiumSilver => premiumSilver
      case Normal => normal
    }

    /** This vector with tier `t` set to `n`. */
    function With(t: Tier, n: int): (r: PerTier)
      ensures r.Get(t) == n
      ensures forall u :: u != t ==> r.Get(u) == Get(u)
    {
      match t
      case Deluxe => this.(deluxe := n)
      case PremiumGold => this.(premiumGold := n)
      case PremiumSilver => this.(premiumSilver := n)
      case Normal => this.(normal := n)
    }

    function Total(): int
    {
      deluxe + premiumGold + premiumSilver + normal
    }
  }

  /** The tier-wise sum of two vectors. */
  function Plus(a: PerTier, b: PerTier): PerTier
  {
    PerTier(a.deluxe + b.deluxe, a.premiumGold + b.premiumGold, a.premiumSilver + b.premiumSilver, a.normal + b.normal)
  }

  function Details(categories: seq<RoomCategory>, t: Tier): CategoryDetails
  {
    GetCategoryDetails(categories, TierName(t))
  }

  /** `paxDeluxe`, `paxGold`, ...: rooms booked times the tier's capacity. */
  function Passengers(categories: seq<RoomCategory>, rooms: PerTier): (pax: PerTier)
    ensures forall t :: pax.Get(t) == rooms.Get(t) * Details(categories, t).capacity
  {
    PerTier(
      rooms.deluxe * Details(categories, Deluxe).capacity,
      rooms.premiumGold * Details(categories, PremiumGold).capacity,
      rooms.premiumSilver * Details(categories, PremiumSilver).capacity,
      rooms.normal * Details(categories, Normal).capacity)
  }

  /** Price of one room in each tier (0 for a tier with no category). */
  function Prices(categories: seq<RoomCategory>): (p: PerTier)
    ensures forall t :: p.Get(t) == Details(categories, t).price
  {
    var d, g, s, n := Details(categories, Deluxe), Details(categories, PremiumGold),
                      Details(categories, PremiumSilver), Details(categories, Normal);
    PerTier(d.price, g.price, s.price, n.price)
  }

  /**
   * `revDeluxe + revGold + revSilver + revNormal`, each being rooms times price.
   * What it promises is stated by `RevenueAdditive`, `RevenueNonNegative`,
   * `BookOneMore` and `MissingTierCountsNothing`.
   */
  function TicketRevenue(categories: seq<RoomCategory>, rooms: PerTier): int
  {
    rooms.deluxe * Details(categories, Deluxe).price
      + rooms.premiumGold * Details(categories, PremiumGold).price
      + rooms.premiumSilver * Details(categories, PremiumSilver).price
      + rooms.normal * Details(categories, Normal).price
  }

  /** Revenue is additive in the bookings: two bookings together earn what they earn apart. */
  lemma RevenueAdditive(categories: seq<RoomCategory>, a: PerTier, b: PerTier)
    ensures TicketRevenue(categories, Plus(a, b)) == TicketRevenue(categories, a) + TicketRevenue(categories, b)
  {
    var d, g, s, n := Details(categories, Deluxe).price, Details(categories, PremiumGold).price,
                      Details(categories, PremiumSilver).price, Details(categories, Normal).price;
    var c := Plus(a, b);
    assert TicketRevenue(categories, c) == c.deluxe * d + c.premiumGold * g + c.premiumSilver * s + c.normal * n;
    Distribute(a.deluxe, b.deluxe, c.deluxe, d);
    Distribute(a.premiumGold, b.premiumGold, c.premiumGold, g);
    Distribute(a.premiumSilver, b.premiumSilver, c.premiumSilver, s);
    Distribute(a.normal, b.normal, c.normal, n);
    assert TicketRevenue(categories, a) == a.deluxe * d + a.premiumGold * g + a.premiumSilver * s + a.normal * n;
    assert TicketRevenue(categories, b) == b.deluxe * d + b.premiumGold * g + b.premiumSilver * s + b.normal * n;
  }

  /** With non-negative bookings and prices the revenue is never negative. */
  lemma RevenueNonNegative(categories: seq<RoomCategory>, rooms: PerTier)
    requires forall t :: rooms.Get(t) >= 0 && Details(categories, t).price >= 0
    ensures TicketRevenue(categories, rooms) >= 0
  {
    var p := Prices(categories);
    assert p.Get(Deluxe) == p.deluxe && p.Get(PremiumGold) == p.premiumGold;
    assert p.Get(PremiumSilver) == p.premiumSilver && p.Get(Normal) == p.normal;
    assert rooms.Get(Deluxe) >= 0 && rooms.Get(PremiumGold) >= 0;
    assert rooms.Get(PremiumSilver) >= 0 && rooms.Get(Normal) >= 0;
    NonNegativeProduct(rooms.deluxe, p.deluxe);
    NonNegativeProduct(rooms.premiumGold, p.premiumGold);
    NonNegativeProduct(rooms.premiumSilver, p.premiumSilver);
    NonNegativeProduct(rooms.normal, p.normal);
  }

  lemma Distribute(x: int, y: int, z: int, k: int)
    requires z == x + y
    ensures z * k == x * k + y * k
  {
  }

  lemma NonNegativeProduct(x: int, k: int)
    requires x >= 0 && k >= 0
    ensures x * k >= 0
  {
  }

  /** Booking one more room of tier `t` adds exactly that tier's price and capacity. */
  lemma BookOneMore(categories: seq<RoomCategory>, rooms: PerTier, t: Tier)
    ensures TicketRevenue(categories, rooms.With(t, rooms.Get(t) + 1))
            == TicketRevenue(categories, rooms) + Details(categories, t).price
    ensures Passengers(categories, rooms.With(t, rooms.Get(t) + 1)).Total()
            == Passengers(categories, rooms).Total() + Details(categories, t).capacity
  {
    match t
    case Deluxe =>
    case PremiumGold =>
    case PremiumSilver =>
    case Normal =>
  }

  /** Rooms booked in a tier whose category does not exist carry no passengers and no revenue. */
  lemma MissingTierCountsNothing(categories: seq<RoomCategory>, rooms: PerTier, t: Tier, n: int)
    requires forall c :: c in categories ==> c.name != TierName(t)
    ensures TicketRevenue(categories, rooms.With(t, n)) == TicketRevenue(categories, rooms)
    ensures Passengers(categories, rooms.With(t, n)).Total() == Passengers(categories, rooms).Total()
  {
    match t
    case Deluxe =>
    case PremiumGold =>
    case PremiumSilver =>
    case Normal =>
  }

  /** Milliseconds in a day: `1000 * 60 * 60 * 24`. */
  const MS_PER_DAY: int := 1000 * 60 * 60 * 24

  /** `Math.ceil(a / b)` for a positive divisor. */
  function CeilDiv(a: int, b: int): (c: int)
    requires b > 0
    ensures (c - 1) * b < a <= c * b
  {
    -((-a) / b)
  }

  /**
   * `durationDays`: 0 while either date is empty, otherwise the span in whole
   * days rounded up, and never less than 1. `timeOf` stands for
   * `new Date(s).getTime()`.
   */
  function DurationDays(startDate: string, endDate: string, timeOf: string -> int): (d: int)
    ensures |startDate| == 0 || |endDate| == 0 ==> d == 0
    ensures |startDate| > 0 && |endDate| > 0 ==> d >= 1
    ensures |startDate| > 0 && |endDate| > 0 && timeOf(endDate) - timeOf(startDate) <= MS_PER_DAY ==> d == 1
    ensures |startDate| > 0 && |endDate| > 0 && timeOf(endDate) - timeOf(startDate) > 0 ==>
              (d - 1) * MS_PER_DAY < timeOf(endDate) - timeOf(startDate) <= d * MS_PER_DAY
  {
    if |startDate| == 0 || |endDate| == 0 then 0
    else
      var days := CeilDiv(timeOf(endDate) - timeOf(startDate), MS_PER_DAY);
      if days < 1 then 1 else days
  }
}
