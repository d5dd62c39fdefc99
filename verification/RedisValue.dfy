/** The entry type of src/redis/database/redis_value.h. Time is in nanoseconds since the epoch,
    the tick of `std::chrono::system_clock`, and wraps at 64 bits as that clock does. */
module RedisValue {
  import opened Decimal

  datatype RedisType = STRING | LIST | SET | HASH | ZSET | STREAM

  datatype RedisValue = RedisValue(
    kind: RedisType,
    text: string,
    list: seq<string>,
    members: set<string>,
    fields: map<string, string>,
    expiry: int,
    hasExpiry: bool)
  {
    predicate IsExpired(now: int) {
      hasExpiry && now >= expiry
    }

    /** `setExpiry(ttl)` at clock reading `now`. */
    function SetExpiry(now: int, milliseconds: int): RedisValue {
      this.(expiry := Wrap64(now + Wrap64(milliseconds * 1_000_000)), hasExpiry := true)
    }

    function ClearExpiry(): RedisValue {
      this.(hasExpiry := false)
    }
  }

  function OfType(kind: RedisType): RedisValue {
    RedisValue(kind, "", [], {}, map[], 0, false)
  }

  function OfString(text: string): RedisValue {
    OfType(STRING).(text := text)
  }

  /** The conversion of `std::chrono::seconds` to milliseconds. */
  function SecondsToMs(seconds: int): int {
    Wrap64(seconds * 1000)
  }
}
