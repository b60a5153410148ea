/** The two record shapes the API delivers and the dashboard reads. Only the
    fields the aggregation, statistics and filters look at are modelled. */
module Records {
  import opened Js

  /** One inventory unit (a row of `GET /properties`). `homesiteSqFt` is the
      nested field `p["Homesite Sq"]?.Ft?.[""]`, absent when any step of that
      path is missing. */
  datatype Property = Property(
    city: Option<string>,
    state: Option<string>,
    zipcode: Option<string>,
    mpc: Option<string>,
    homesitePrice: Option<real>,
    homesiteSqFt: Option<real>)

  /** One community's sales record (a row of `GET /siteplans`). */
  datatype SitePlan = SitePlan(
    city: Option<string>,
    state: Option<string>,
    sold: Option<int>,
    total: Option<int>)

  /** `plan.Sold || 0` */
  function SoldOrZero(sp: SitePlan): int {
    IntOr(sp.sold, 0)
  }

  /** `plan.Total || 0` */
  function TotalOrZero(sp: SitePlan): int {
    IntOr(sp.total, 0)
  }
}
