/** What every feed sidecar is configured with: an area, a symbology, and where each came from. */
module FeedSettings {
  import opened Wrappers

  /** Where a feed is looking; here it is only ever compared. */
  datatype Area =
    | Bbox(south: real, west: real, north: real, east: real)
    | Circle(lat: real, lon: real, radiusKm: real)

  datatype Symbology = TypeOnly | Milstd2525C | Milstd2525D

  /** Which of the three places a setting in effect came from. */
  datatype From = File | Server | Default
}
