/** Fields every analysis reads from an event in the same way. */
module Events {
  import opened Json
  import opened Utils

  /** `event.get("timestamp", "00:00:00.000")`. */
  function Timestamp(e: Json): Json {
    Field(e, "timestamp", JStr("00:00:00.000"))
  }

  /** The event's timestamp in seconds; a missing timestamp reads as "00:00:00.000", which
      is worth 0. */
  function Seconds(e: Json): real {
    if e.JObj? && "timestamp" in e.fields then ParseTimestampToSeconds(e.fields["timestamp"]) else 0.0
  }

  /** `parse_timestamp_to_seconds(event.get("timestamp", "00:00:00.000"))` is `Seconds`. */
  lemma SecondsOfTimestamp(e: Json)
    ensures ParseTimestampToSeconds(Timestamp(e)) == Seconds(e)
  {
    if !(e.JObj? && "timestamp" in e.fields) {
      ZeroTimestamp("00:00:00.000");
    }
  }

  /** `event.get("type", {}).get("name", "")`. */
  function EventType(e: Json): Json {
    SubField(e, "type", "name", JStr(""))
  }

  /** `x.get(k, {}).get(sub, {})` can be used as a dict. */
  predicate SubDictReadable(x: Json, k: string, sub: string) {
    DictField(x, k) && (k in x.fields ==> DictOrAbsent(x.fields[k].fields, sub))
  }
}
