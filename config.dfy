/** The static station table: display names, coordinates and the two alert
    thresholds of every monitored gauge on the Mekong delta. */
module Config {

  /** Configuration of one station; thresholds are water levels in metres. */
  datatype StationConfig = StationConfig(
    name: string,
    nameEn: string,
    lat: real,
    lon: real,
    floodThreshold: real,
    warningThreshold: real)

  /** The configured stations, keyed by station id. */
  const Stations: map<string, StationConfig> := map[
    "can_tho"   := StationConfig("Cần Thơ",   "Can Tho",   10.0452, 105.7469, 2.0, 1.8),
    "my_thuan"  := StationConfig("Mỹ Thuận",  "My Thuan",  10.2833, 105.9167, 2.2, 2.0),
    "vinh_long" := StationConfig("Vĩnh Long", "Vinh Long", 10.2396, 105.9572, 2.0, 1.8),
    "tan_chau"  := StationConfig("Tân Châu",  "Tan Chau",  10.8000, 105.2500, 4.5, 4.0),
    "chau_doc"  := StationConfig("Châu Đốc",  "Chau Doc",  10.7054, 105.1114, 4.0, 3.5)
  ]

  /** The alert tiers are only ordered as intended when the flood threshold is
      not below the warning threshold; the configured table respects that. */
  predicate ThresholdsOrdered(c: StationConfig) {
    c.floodThreshold >= c.warningThreshold
  }

  lemma ConfiguredThresholdsOrdered()
    ensures forall id :: id in Stations ==> ThresholdsOrdered(Stations[id])
    ensures forall id :: id in Stations ==> Stations[id].warningThreshold > 0.0
  {
  }
}
