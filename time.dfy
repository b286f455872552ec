/** Instants read from a clock (`new Date()`, `LocalDateTime.now()`), supplied by the caller. */
module Time {
  datatype Timestamp = Timestamp(ticks: int)
}
