/**
  The decoded body of Kibana's `/api/status` response, as the plugin's
  `kibanaStatus` record and its nested records describe it. Only the fields the
  plugin reads or declares are kept; the free-form `statuses` member is not.
 */
module KibanaRecords {

  /** Go's `int64`, the width of every integer counter in the response. */
  type Int64 = x: int | -0x8000_0000_0000_0000 <= x < 0x8000_0000_0000_0000

  /** The overall health: `state` is filled by Kibana before 8.x, `level` by 8.x and later. */
  datatype OverallStatus = OverallStatus(state: string, level: string)

  datatype Status = Status(overall: OverallStatus)

  datatype Version = Version(number: string, buildHash: string, buildNumber: Int64, buildSnapshot: bool)

  datatype ResponseTimes = ResponseTimes(avgInMillis: real, maxInMillis: Int64)

  /** Heap figures as reported before Kibana 6.4. */
  datatype Mem = Mem(heapMaxInBytes: Int64, heapUsedInBytes: Int64)

  /** Heap figures as reported from Kibana 6.4 on. */
  datatype Heap = Heap(totalInBytes: Int64, usedInBytes: Int64, sizeLimit: Int64)

  datatype Memory = Memory(heap: Heap)

  datatype Process = Process(mem: Mem, memory: Memory, uptimeInMillis: real)

  datatype Requests = Requests(total: Int64)

  datatype Metrics = Metrics(
    uptimeInMillis: real,
    concurrentConnections: Int64,
    collectionIntervalInMillis: Int64,
    responseTimes: ResponseTimes,
    process: Process,
    requests: Requests)

  datatype KibanaStatus = KibanaStatus(name: string, version: Version, status: Status, metrics: Metrics)
}
