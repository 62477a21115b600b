/** The summary an inetdiager reports (pkg/inetdiagerstater InetdiagerStats). */
module Stats {

  datatype InetdiagerStats = InetdiagerStats(
    inSizeTotal: int, msgCount: int, bytesReadTotal: int, padBufferTotal: int,
    udpWritesTotal: int, udpBytesWrittenTotal: int, udpErrorsTotal: int, statsBlocked: int)

  const ZERO_STATS: InetdiagerStats := InetdiagerStats(0, 0, 0, 0, 0, 0, 0, 0)

  function Add(a: InetdiagerStats, b: InetdiagerStats): InetdiagerStats {
    InetdiagerStats(
      a.inSizeTotal + b.inSizeTotal, a.msgCount + b.msgCount, a.bytesReadTotal + b.bytesReadTotal,
      a.padBufferTotal + b.padBufferTotal, a.udpWritesTotal + b.udpWritesTotal,
      a.udpBytesWrittenTotal + b.udpBytesWrittenTotal, a.udpErrorsTotal + b.udpErrorsTotal,
          a.statsBlocked + b.statsBlocked)
  }

  function Difference(a: InetdiagerStats, b: InetdiagerStats): InetdiagerStats {
    InetdiagerStats(
      a.inSizeTotal - b.inSizeTotal, a.msgCount - b.msgCount, a.bytesReadTotal - b.bytesReadTotal,
      a.padBufferTotal - b.padBufferTotal, a.udpWritesTotal - b.udpWritesTotal,
      a.udpBytesWrittenTotal - b.udpBytesWrittenTotal, a.udpErrorsTotal - b.udpErrorsTotal,
          a.statsBlocked - b.statsBlocked)
  }

  /** No counter of a exceeds its counterpart in b. */
  predicate AtMost(a: InetdiagerStats, b: InetdiagerStats) {
    && a.inSizeTotal <= b.inSizeTotal && a.msgCount <= b.msgCount && a.bytesReadTotal <= b.bytesReadTotal
    && a.padBufferTotal <= b.padBufferTotal && a.udpWritesTotal <= b.udpWritesTotal
    && a.udpBytesWrittenTotal <= b.udpBytesWrittenTotal && a.udpErrorsTotal <= b.udpErrorsTotal
    && a.statsBlocked <= b.statsBlocked
  }
}
