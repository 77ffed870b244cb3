/** types/video.ts: a video and its latest statistics as the frontend receives
    them. `publishedAt` is an ISO date string in the source; the charts only
    use the year and month the browser decodes from it, so the model keeps
    that decoded pair. */
module VideoTypes {

  /** `date.getMonth() + 1`. */
  type Month = m: int | 1 <= m <= 12 witness 1

  datatype YearMonth = YearMonth(year: int, month: Month)

  datatype VideoStats = VideoStats(viewCount: int, likeCount: int, commentCount: int)

  datatype Video = Video(
    id: int,
    youtubeVideoId: string,
    title: string,
    thumbnailUrl: string,
    publishedAt: YearMonth,
    durationSec: int,
    latestStats: VideoStats)

  /** The sort key of the charts: `latestStats.viewCount`. */
  function Views(v: Video): real {
    v.latestStats.viewCount as real
  }
}
