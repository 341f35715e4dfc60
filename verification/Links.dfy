/** The per-interface record that the balancer hands out and everybody counts on. */
module Links {
  class Link {
    const Name: string
    var LocalIP: string
    var Weight: int
    var Healthy: bool
    var ProbeLatency: real     // seconds
    var ActiveConns: int
    var TotalConns: int
    var BytesIn: int
    var BytesOut: int

    constructor (name: string, ip: string, weight: int, healthy: bool, latency: real)
      ensures Name == name && LocalIP == ip && Weight == weight && Healthy == healthy && ProbeLatency == latency
      ensures ActiveConns == TotalConns == BytesIn == BytesOut == 0
    {
      Name, LocalIP, Weight, Healthy, ProbeLatency := name, ip, weight, healthy, latency;
      ActiveConns, TotalConns, BytesIn, BytesOut := 0, 0, 0, 0;
    }
  }
}
