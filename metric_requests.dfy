/**
 * The action dispatch of updateMetric. The management service's update and
 * insert calls are replaced by the request each would send.
 */
module MetricRequests {
  import opened Wrappers
  import opened MetricIds
  import opened Validator
  import opened SourceTable

  /**
   * A call to the custom-metrics management service: an update of the metric
   * with the given id, or an insert that lets the service assign the id.
   */
  datatype Request =
    | Update(accountId: string, propertyId: string, metricId: string, body: Entry,
             ignoreCustomDataSourceLinks: bool)
    | Insert(accountId: string, propertyId: string, body: Entry)
  {
    function Body(): Entry {
      match this
      case Update(_, _, _, body, _) => body
      case Insert(_, _, body) => body
    }
  }

  /**
   * updateMetric: 'update' updates slot index's metric keeping the links of
   * custom data sources to it, 'create' inserts a new metric, and any other
   * action sends nothing.
   */
  function UpdateMetric(action: string, aid: string, pid: string, index: nat, newMetric: Entry): (r: Option<Request>)
    ensures r.Some? && r.value.Update? <==> action == "update"
    ensures r.Some? && r.value.Insert? <==> action == "create"
    ensures r.None? <==> action != "update" && action != "create"
    ensures r.Some? ==> r.value.accountId == aid && r.value.propertyId == pid && r.value.Body() == newMetric
    ensures r.Some? && r.value.Update? ==>
      ParseMetricId(r.value.metricId) == Some(index) && r.value.ignoreCustomDataSourceLinks
  {
    if action == "update" then
      MetricIdRoundTrip(index);
      Some(Update(aid, pid, MetricId(index), newMetric, true))
    else if action == "create" then
      Some(Insert(aid, pid, newMetric))
    else
      None
  }

  /**
   * Updating slot i + 1 with record i of a built list targets the id that
   * record carries, when it carries one.
   */
  lemma UpdateTargetsEntrySlot(defaultRow: Row, rows: seq<Row>, entries: seq<Entry>,
                               i: nat, aid: string, pid: string)
    requires SourceData(defaultRow, rows) == Success(entries)
    requires i < |entries| && entries[i].id.Some?
    ensures UpdateMetric("update", aid, pid, i + 1, entries[i])
         == Some(Update(aid, pid, entries[i].id.value, entries[i], true))
  {
  }
}
