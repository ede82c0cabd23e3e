/**
 * The financial part of the dashboard statistics: the profit/loss fold over
 * every trip's revenue record, the loss alert list, and the per-trip revenue
 * series. Counts read straight from the store and the month buckets are not
 * part of this model.
 */
module Dashboard {
  import opened Common

  /** A `TripRevenue` record together with its cruise's name. */
  datatype RevenueRow = RevenueRow(cruiseId: string, cruiseName: string, totalRevenue: int, totalExpenses: int)

  /** One entry of `alerts.lossMakingTrips`. */
  datatype LossAlert = LossAlert(id: string, name: string, loss: int)

  /** One entry of `revenuePerTrip`. */
  datatype TripPoint = TripPoint(name: string, revenue: int, profit: int)

  function Net(row: RevenueRow): int
  {
    row.totalRevenue - row.totalExpenses
  }

  /** Sum of the non-negative net results: break-even rows count as profit. */
  function ProfitSum(rows: seq<RevenueRow>): int
  {
    if |rows| == 0 then 0
    else ProfitSum(rows[..|rows| - 1]) + (if Net(rows[|rows| - 1]) >= 0 then Net(rows[|rows| - 1]) else 0)
  }

  /** Sum of the magnitudes of the negative net results. */
  function LossSum(rows: seq<RevenueRow>): int
  {
    if |rows| == 0 then 0
    else LossSum(rows[..|rows| - 1]) + (if Net(rows[|rows| - 1]) < 0 then -Net(rows[|rows| - 1]) else 0)
  }

  function NetSum(rows: seq<RevenueRow>): int
  {
    if |rows| == 0 then 0 else NetSum(rows[..|rows| - 1]) + Net(rows[|rows| - 1])
  }

  function NegativeCount(rows: seq<RevenueRow>): nat
  {
    if |rows| == 0 then 0
    else NegativeCount(rows[..|rows| - 1]) + (if Net(rows[|rows| - 1]) < 0 then 1 else 0)
  }

  /** The alert a loss-making row raises: its cruise id and name, and `Math.abs(profit)`. */
  function AlertOf(row: RevenueRow): LossAlert
  {
    LossAlert(row.cruiseId, row.cruiseName, -Net(row))
  }

  /** One alert per negative row, in input order, carrying the row's cruise and loss. */
  function LossAlerts(rows: seq<RevenueRow>): (alerts: seq<LossAlert>)
    ensures |alerts| == NegativeCount(rows)
    ensures forall a :: a in alerts ==> a.loss > 0
    decreases |rows|
  {
    if |rows| == 0 then []
    else
      var last := rows[|rows| - 1];
      var rest := LossAlerts(rows[..|rows| - 1]);
      if Net(last) < 0 then rest + [AlertOf(last)] else rest
  }

  /**
   * The alert list is built row by row and in order: the alerts of `a + b` are
   * those of `a` followed by those of `b`, and one row raises its own alert
   * exactly when its net result is negative.
   */
  lemma {:induction false} LossAlertsAppend(a: seq<RevenueRow>, b: seq<RevenueRow>)
    ensures LossAlerts(a + b) == LossAlerts(a) + LossAlerts(b)
    ensures forall row :: LossAlerts([row]) == if Net(row) < 0 then [AlertOf(row)] else []
    decreases |b|
  {
    forall row: RevenueRow
      ensures LossAlerts([row]) == if Net(row) < 0 then [AlertOf(row)] else []
    {
      assert [row][..0] == [];
    }
    if |b| == 0 {
      assert a + b == a;
    } else {
      assert (a + b)[..|a + b| - 1] == a + b[..|b| - 1];
      LossAlertsAppend(a, b[..|b| - 1]);
    }
  }

  /**
   * Every alert names a row whose net result is negative, with that row's
   * cruise id, cruise name and loss; and every such row has its alert.
   */
  lemma {:induction false} AlertsMatchLosingRows(rows: seq<RevenueRow>)
    ensures forall k :: 0 <= k < |LossAlerts(rows)| ==>
              exists j :: 0 <= j < |rows| && Net(rows[j]) < 0 && LossAlerts(rows)[k] == AlertOf(rows[j])
    ensures forall j :: 0 <= j < |rows| && Net(rows[j]) < 0 ==> AlertOf(rows[j]) in LossAlerts(rows)
    decreases |rows|
  {
    if |rows| > 0 {
      var init := rows[..|rows| - 1];
      var last := rows[|rows| - 1];
      AlertsMatchLosingRows(init);
      assert forall j :: 0 <= j < |init| ==> init[j] == rows[j];
      var rest := LossAlerts(init);
      var all := LossAlerts(rows);
      assert all == if Net(last) < 0 then rest + [AlertOf(last)] else rest;
      assert forall k :: 0 <= k < |rest| ==> all[k] == rest[k];
      forall k | 0 <= k < |all|
        ensures exists j :: 0 <= j < |rows| && Net(rows[j]) < 0 && all[k] == AlertOf(rows[j])
      {
        if k < |rest| {
          var j :| 0 <= j < |init| && Net(init[j]) < 0 && rest[k] == AlertOf(init[j]);
          assert rows[j] == init[j];
        } else {
          assert Net(last) < 0 && all[k] == AlertOf(rows[|rows| - 1]);
        }
      }
      forall j | 0 <= j < |rows| && Net(rows[j]) < 0
        ensures AlertOf(rows[j]) in all
      {
        if j < |init| {
          assert AlertOf(init[j]) in rest;
        } else {
          assert all[|all| - 1] == AlertOf(last);
        }
      }
    } else {
      assert LossAlerts(rows) == [];
    }
  }

  function AlertTotal(alerts: seq<LossAlert>): int
  {
    if |alerts| == 0 then 0 else AlertTotal(alerts[..|alerts| - 1]) + alerts[|alerts| - 1].loss
  }

  /** Profit minus loss is the plain sum of every trip's net result. */
  lemma {:induction false} ProfitMinusLossIsNet(rows: seq<RevenueRow>)
    ensures ProfitSum(rows) - LossSum(rows) == NetSum(rows)
    ensures ProfitSum(rows) >= 0 && LossSum(rows) >= 0
    decreases |rows|
  {
    if |rows| > 0 {
      ProfitMinusLossIsNet(rows[..|rows| - 1]);
    }
  }

  /** The losses listed in the alerts add up to the total loss. */
  lemma {:induction false} AlertsAddUpToLoss(rows: seq<RevenueRow>)
    ensures AlertTotal(LossAlerts(rows)) == LossSum(rows)
    decreases |rows|
  {
    if |rows| > 0 {
      AlertsAddUpToLoss(rows[..|rows| - 1]);
      var rest := LossAlerts(rows[..|rows| - 1]);
      var last := rows[|rows| - 1];
      if Net(last) < 0 {
        var withLast := rest + [AlertOf(last)];
        assert withLast[..|withLast| - 1] == rest;
      }
    }
  }

  /** A trip that breaks even or makes a profit raises no alert. */
  lemma NonLossRowRaisesNoAlert(rows: seq<RevenueRow>, row: RevenueRow)
    requires Net(row) >= 0
    ensures LossAlerts(rows + [row]) == LossAlerts(rows)
    ensures ProfitSum(rows + [row]) == ProfitSum(rows) + Net(row)
    ensures LossSum(rows + [row]) == LossSum(rows)
  {
    assert (rows + [row])[..|rows|] == rows;
  }

  /**
   * The `allRevenue.forEach` fold of `getDashboardStats`: totals of profit and
   * loss and the list of loss-making trips.
   */
  method ProfitAndLoss(rows: seq<RevenueRow>) returns (totalProfit: int, totalLoss: int, lossMakingTrips: seq<LossAlert>)
    ensures totalProfit == ProfitSum(rows) && totalLoss == LossSum(rows)
    ensures totalProfit >= 0 && totalLoss >= 0
    ensures totalProfit - totalLoss == NetSum(rows)
    ensures lossMakingTrips == LossAlerts(rows)
    ensures |lossMakingTrips| == NegativeCount(rows)
    ensures forall a :: a in lossMakingTrips ==> a.loss > 0
    ensures AlertTotal(lossMakingTrips) == totalLoss
  {
    totalProfit := 0;
    totalLoss := 0;
    lossMakingTrips := [];
    var i := 0;
    while i < |rows|
      invariant 0 <= i <= |rows|
      invariant totalProfit == ProfitSum(rows[..i])
      invariant totalLoss == LossSum(rows[..i])
      invariant lossMakingTrips == LossAlerts(rows[..i])
    {
      assert rows[..i + 1][..i] == rows[..i];
      var profit := rows[i].totalRevenue - rows[i].totalExpenses;
      if profit >= 0 {
        totalProfit := totalProfit + profit;
      } else {
        totalLoss := totalLoss + -profit;
        lossMakingTrips := lossMakingTrips + [LossAlert(rows[i].cruiseId, rows[i].cruiseName, -profit)];
      }
      i := i + 1;
    }
    assert rows[..i] == rows;
    ProfitMinusLossIsNet(rows);
    AlertsAddUpToLoss(rows);
  }

  /** `revenuePerTrip`: one point per revenue row, in the same order. */
  function RevenuePerTrip(rows: seq<RevenueRow>): (points: seq<TripPoint>)
    ensures |points| == |rows|
    ensures forall i :: 0 <= i < |rows| ==>
              points[i] == TripPoint(rows[i].cruiseName, rows[i].totalRevenue, Net(rows[i]))
  {
    seq(|rows|, i requires 0 <= i < |rows| => TripPoint(rows[i].cruiseName, rows[i].totalRevenue, Net(rows[i])))
  }

  function PointProfitSum(points: seq<TripPoint>): int
  {
    if |points| == 0 then 0 else PointProfitSum(points[..|points| - 1]) + points[|points| - 1].profit
  }

  /** The profits plotted per trip add up to total profit minus total loss. */
  lemma {:induction false} PlottedProfitsMatchTotals(rows: seq<RevenueRow>)
    ensures PointProfitSum(RevenuePerTrip(rows)) == ProfitSum(rows) - LossSum(rows)
    decreases |rows|
  {
    if |rows| > 0 {
      PlottedProfitsMatchTotals(rows[..|rows| - 1]);
      assert RevenuePerTrip(rows)[..|rows| - 1] == RevenuePerTrip(rows[..|rows| - 1]);
      ProfitMinusLossIsNet(rows);
      ProfitMinusLossIsNet(rows[..|rows| - 1]);
    }
  }
}
