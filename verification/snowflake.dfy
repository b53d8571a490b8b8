/** Snowflake IDs (`discord/utils.py`): a 64-bit ID whose top bits are the
    milliseconds since the Discord epoch and whose low 22 bits hold the worker
    ID (5 bits), process ID (5 bits) and a per-process increment (12 bits).

    Python ints are unbounded and `>>`/`&` act on them as on infinite two's
    complement: `x >> n` is floor division by 2^n and `x & (2^n - 1)` is the
    non-negative remainder modulo 2^n. Dafny's `/` and `%` with a positive
    divisor are exactly these, so the helpers below are total on `int`. */
module Snowflake {

  /** Milliseconds from the Unix epoch to the first second of 2015. */
  const DISCORD_EPOCH: int := 1420070400000

  const TIMESTAMP_SHIFT: nat := 0x40_0000  // 2^22
  const WORKER_SHIFT: nat := 0x2_0000      // 2^17
  const PROCESS_SHIFT: nat := 0x1000       // 2^12
  const FIVE_BITS: nat := 0x20             // 2^5
  const INCREMENT_BITS: nat := 0x1000      // 2^12

  /** `(id >> 17) & 0x1F`. */
  function WorkerId(id: int): (r: int)
    ensures 0 <= r < 32
  {
    (id / WORKER_SHIFT) % FIVE_BITS
  }

  /** `(id >> 12) & 0x1F`. */
  function ProcessId(id: int): (r: int)
    ensures 0 <= r < 32
  {
    (id / PROCESS_SHIFT) % FIVE_BITS
  }

  /** `id & 0xFFF`. */
  function Increment(id: int): (r: int)
    ensures 0 <= r < 4096
  {
    id % INCREMENT_BITS
  }

  /** The integer part of `snowflake_time`: `(id >> 22) + DISCORD_EPOCH`
      milliseconds since the Unix epoch. */
  function TimeMillis(id: int): int {
    id / TIMESTAMP_SHIFT + DISCORD_EPOCH
  }

  /** `time_snowflake` for a time given in whole milliseconds since the Unix
      epoch: `(millis - DISCORD_EPOCH) << 22`, plus all low 22 bits set when
      `high`. Python's `<<` on a negative int multiplies, so any `millis` works. */
  function TimeSnowflake(millis: int, high: bool): int {
    (millis - DISCORD_EPOCH) * TIMESTAMP_SHIFT + (if high then TIMESTAMP_SHIFT - 1 else 0)
  }

  /** The worker ID is the top five of the low 22 bits. */
  lemma WorkerBits(id: int)
    ensures WorkerId(id) == (id % TIMESTAMP_SHIFT) / WORKER_SHIFT
  {
    var q, r := id / TIMESTAMP_SHIFT, id % TIMESTAMP_SHIFT;
    var w, rw := r / WORKER_SHIFT, r % WORKER_SHIFT;
    assert id == (q * FIVE_BITS + w) * WORKER_SHIFT + rw;
    assert id / WORKER_SHIFT == q * FIVE_BITS + w;
  }

  /** The process ID is the next five bits down. */
  lemma ProcessBits(id: int)
    ensures ProcessId(id) == (id % WORKER_SHIFT) / PROCESS_SHIFT
  {
    var q, r := id / WORKER_SHIFT, id % WORKER_SHIFT;
    var p, i := r / PROCESS_SHIFT, r % PROCESS_SHIFT;
    assert id == (q * FIVE_BITS + p) * PROCESS_SHIFT + i;
    assert id / PROCESS_SHIFT == q * FIVE_BITS + p;
  }

  /** The low 17 bits of the low 22 bits are the low 17 bits. */
  lemma LowBits17(id: int)
    ensures (id % TIMESTAMP_SHIFT) % WORKER_SHIFT == id % WORKER_SHIFT
  {
    var q, r := id / TIMESTAMP_SHIFT, id % TIMESTAMP_SHIFT;
    var a, b := r / WORKER_SHIFT, r % WORKER_SHIFT;
    assert id == (q * FIVE_BITS + a) * WORKER_SHIFT + b;
    assert id % WORKER_SHIFT == b;
  }

  /** The low 12 bits of the low 17 bits are the low 12 bits. */
  lemma LowBits12(id: int)
    ensures (id % WORKER_SHIFT) % PROCESS_SHIFT == id % INCREMENT_BITS
  {
    var q, r := id / WORKER_SHIFT, id % WORKER_SHIFT;
    var a, b := r / PROCESS_SHIFT, r % PROCESS_SHIFT;
    assert id == (q * FIVE_BITS + a) * PROCESS_SHIFT + b;
    assert id % INCREMENT_BITS == b;
  }

  /** The four fields reassemble the ID: they are disjoint bit ranges. */
  lemma FieldsReassemble(id: int)
    ensures id == (id / TIMESTAMP_SHIFT) * TIMESTAMP_SHIFT
                  + WorkerId(id) * WORKER_SHIFT + ProcessId(id) * PROCESS_SHIFT + Increment(id)
  {
    WorkerBits(id);
    ProcessBits(id);
    LowBits17(id);
    LowBits12(id);
    var r := id % TIMESTAMP_SHIFT;
    assert r == (r / WORKER_SHIFT) * WORKER_SHIFT + r % WORKER_SHIFT;
    var rw := id % WORKER_SHIFT;
    assert rw == (rw / PROCESS_SHIFT) * PROCESS_SHIFT + rw % PROCESS_SHIFT;
  }

  /** `snowflake_time(time_snowflake(t))` recovers `t`, with either low-bit fill. */
  lemma TimeRoundTrip(millis: int, high: bool)
    ensures TimeMillis(TimeSnowflake(millis, high)) == millis
    ensures TimeSnowflake(millis, high) / TIMESTAMP_SHIFT == millis - DISCORD_EPOCH
    ensures TimeSnowflake(millis, high) % TIMESTAMP_SHIFT == (if high then TIMESTAMP_SHIFT - 1 else 0)
  {
    var s := TimeSnowflake(millis, high);
    var low := if high then TIMESTAMP_SHIFT - 1 else 0;
    assert s == (millis - DISCORD_EPOCH) * TIMESTAMP_SHIFT + low && 0 <= low < TIMESTAMP_SHIFT;
  }

  /** With `high` every one of the low 22 bits is set; without it none is. */
  lemma TimeSnowflakeLowFields(millis: int, high: bool)
    ensures WorkerId(TimeSnowflake(millis, high)) == (if high then 31 else 0)
    ensures ProcessId(TimeSnowflake(millis, high)) == (if high then 31 else 0)
    ensures Increment(TimeSnowflake(millis, high)) == (if high then 4095 else 0)
  {
    var s := TimeSnowflake(millis, high);
    var d := millis - DISCORD_EPOCH;
    if high {
      assert s == (d * FIVE_BITS + 31) * WORKER_SHIFT + (WORKER_SHIFT - 1);
      assert s / WORKER_SHIFT == d * FIVE_BITS + 31;
      assert s == ((d * FIVE_BITS + 31) * FIVE_BITS + 31) * PROCESS_SHIFT + (PROCESS_SHIFT - 1);
      assert s / PROCESS_SHIFT == (d * FIVE_BITS + 31) * FIVE_BITS + 31;
      assert s == (((d * FIVE_BITS + 31) * FIVE_BITS + 31)) * INCREMENT_BITS + 4095;
    } else {
      assert s == (d * FIVE_BITS) * WORKER_SHIFT;
      assert s / WORKER_SHIFT == d * FIVE_BITS;
      assert s == (d * FIVE_BITS * FIVE_BITS) * PROCESS_SHIFT;
      assert s / PROCESS_SHIFT == d * FIVE_BITS * FIVE_BITS;
      assert s == (d * FIVE_BITS * FIVE_BITS) * INCREMENT_BITS;
    }
  }

  /** The documented use as range bounds: an ID was created in millisecond
      `millis` exactly when it lies between the low and the high snowflake of
      that millisecond. */
  lemma TimeSnowflakeBrackets(millis: int, id: int)
    ensures TimeMillis(id) == millis <==> TimeSnowflake(millis, false) <= id <= TimeSnowflake(millis, true)
  {
    var d := millis - DISCORD_EPOCH;
    var q, r := id / TIMESTAMP_SHIFT, id % TIMESTAMP_SHIFT;
    assert id == q * TIMESTAMP_SHIFT + r && 0 <= r < TIMESTAMP_SHIFT;
    if q < d {
      assert q * TIMESTAMP_SHIFT <= (d - 1) * TIMESTAMP_SHIFT;
    } else if q > d {
      assert q * TIMESTAMP_SHIFT >= (d + 1) * TIMESTAMP_SHIFT;
    }
  }
}
