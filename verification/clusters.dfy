/** The cluster records the daemon lists from its meta-data store. */
module Clusters {

  /** One container of a cluster. Descriptive only: no daemon decision reads these fields. */
  datatype Node = Node(containerId: string, name: string, initialServerVersion: string, ipv4Address: string)

  /**
   * A cluster record. `timeout` is the absolute expiry instant, as an integer
   * count of time units since a fixed epoch (Go's `time.Time`).
   */
  datatype Cluster = Cluster(id: string, owner: string, creator: string, timeout: int, nodes: seq<Node>)

  /** `cluster.Timeout.Before(now)`: the expiry instant is strictly earlier than the clock reading. */
  predicate Expired(c: Cluster, now: int)
  {
    c.timeout < now
  }

  /** The IDs of a listing, in listing order. */
  function Ids(clusters: seq<Cluster>): (ids: seq<string>)
    ensures |ids| == |clusters|
    ensures forall i :: 0 <= i < |clusters| ==> ids[i] == clusters[i].id
  {
    seq(|clusters|, i requires 0 <= i < |clusters| => clusters[i].id)
  }
}
