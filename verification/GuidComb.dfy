/** GuidCombGenerator: the last six bytes of a new GUID are a big-endian time key. */
module GuidComb {
  import opened Common

  const TICKS_PER_DAY := 864_000_000_000
  const DAYS_IN_KEY := 0x1_0000
  const UNITS_IN_KEY := 0x1_0000_0000

  /** Whole days since the base date, for an instant given in ticks since then. */
  function Days(ticks: nat): nat {
    ticks / TICKS_PER_DAY
  }

  /** Milliseconds of the day divided by 3.333333, cut off: 10000 ticks make a millisecond. */
  function Units(ticks: nat): nat {
    (ticks % TICKS_PER_DAY) * 100 / 3_333_333
  }

  // ----- Bytes -----

  /** BitConverter.GetBytes: least significant byte first. */
  function LittleEndian(v: nat, n: nat): (bs: seq<Byte>)
    ensures |bs| == n
  {
    if n == 0 then [] else [(v % 256) as Byte] + LittleEndian(v / 256, n - 1)
  }

  function BigEndian(v: nat, n: nat): (bs: seq<Byte>)
    ensures |bs| == n
  {
    if n == 0 then [] else BigEndian(v / 256, n - 1) + [(v % 256) as Byte]
  }

  /** The number that bytes stand for, most significant first. */
  function Value(bs: seq<Byte>): nat {
    if bs == [] then 0 else Value(bs[..|bs| - 1]) * 256 + bs[|bs| - 1] as int
  }

  function Power(n: nat): (p: nat)
    ensures p >= 1
  {
    if n == 0 then 1 else 256 * Power(n - 1)
  }

  lemma {:induction false} ReversedBytes(v: nat, n: nat, k: nat)
    requires k < n
    ensures LittleEndian(v, n)[n - 1 - k] == BigEndian(v, n)[k]
  {
    if k < n - 1 {
      ReversedBytes(v / 256, n - 1, k);
    }
  }

  /** The last `k` of the bytes are the bytes of the number cut to `k` bytes. */
  lemma {:induction false} LastBytes(v: nat, n: nat, k: nat)
    requires k <= n
    ensures BigEndian(v, n)[n - k..] == BigEndian(v, k)
  {
    if k > 0 {
      LastBytes(v / 256, n - 1, k - 1);
      assert BigEndian(v, n)[n - k..] == BigEndian(v / 256, n - 1)[n - k..] + [(v % 256) as Byte];
    }
  }

  lemma {:induction false} ValueOfBytes(v: nat, n: nat)
    ensures Value(BigEndian(v, n)) == v % Power(n)
  {
    if n > 0 {
      ValueOfBytes(v / 256, n - 1);
      assert BigEndian(v, n)[..n - 1] == BigEndian(v / 256, n - 1);
      CutOneByte(v, Power(n - 1));
    }
  }

  lemma CutOneByte(v: nat, p: nat)
    requires p >= 1
    ensures (v / 256 % p) * 256 + v % 256 == v % (256 * p)
  {
    var q, r := v / 256 / p, v / 256 % p;
    assert v / 256 == q * p + r;
    var low := r * 256 + v % 256;
    assert v == q * (256 * p) + low by {
      assert v == (q * p + r) * 256 + v % 256;
      assert q * p * 256 == q * (256 * p);
    }
    assert 0 <= low < 256 * p by {
      assert r * 256 <= (p - 1) * 256;
    }
    RemainderUnique(v, 256 * p, q, low);
  }

  lemma RemainderUnique(v: int, m: int, q: int, r: int)
    requires m > 0 && 0 <= r < m && v == q * m + r
    ensures v % m == r
  {
    var d := v / m - q;
    assert d * m == r - v % m;
    assert d >= 1 ==> d * m >= m;
    assert d <= -1 ==> d * m <= -m;
  }

  lemma {:induction false} ValueConcat(a: seq<Byte>, b: seq<Byte>)
    ensures Value(a + b) == Value(a) * Power(|b|) + Value(b)
  {
    if b == [] {
      assert a + b == a;
    } else {
      var front := b[..|b| - 1];
      assert (a + b)[..|a + b| - 1] == a + front;
      ValueConcat(a, front);
      assert Value(a) * Power(|front|) * 256 == Value(a) * Power(|b|);
    }
  }

  // ----- The generator -----

  method ArrayReverse(a: array<Byte>)
    modifies a
    ensures forall k | 0 <= k < a.Length :: a[k] == old(a[a.Length - 1 - k])
  {
    var i, j := 0, a.Length - 1;
    while i < j
      invariant 0 <= i && j == a.Length - 1 - i && i <= j + 1
      invariant forall k | 0 <= k < i || j < k < a.Length :: a[k] == old(a[a.Length - 1 - k])
      invariant forall k | i <= k <= j :: a[k] == old(a[k])
    {
      a[i], a[j] := a[j], a[i];
      i, j := i + 1, j - 1;
    }
  }

  method GetBytes(v: nat, n: nat) returns (a: array<Byte>)
    ensures fresh(a) && a[..] == LittleEndian(v, n)
  {
    a := new Byte[n](i requires 0 <= i < n => LittleEndian(v, n)[i]);
  }

  /** `guidArray` holds the random GUID; `ticks` is the time since the base date. */
  method WriteTimeKey(guidArray: array<Byte>, ticks: nat)
    requires guidArray.Length == 16
    modifies guidArray
    ensures guidArray[..10] == old(guidArray[..10])
    ensures guidArray[10..] == TimeKey(ticks)
  {
    var daysArray := GetBytes(Days(ticks), 4);
    var msecsArray := GetBytes(Units(ticks), 8);
    ArrayReverse(daysArray);
    ArrayReverse(msecsArray);
    forall k | 0 <= k < 4
      ensures daysArray[k] == BigEndian(Days(ticks), 4)[k]
    {
      ReversedBytes(Days(ticks), 4, k);
    }
    forall k | 0 <= k < 8
      ensures msecsArray[k] == BigEndian(Units(ticks), 8)[k]
    {
      ReversedBytes(Units(ticks), 8, k);
    }
    LastBytes(Days(ticks), 4, 2);
    LastBytes(Units(ticks), 8, 4);
    assert daysArray[2..] == BigEndian(Days(ticks), 2);
    assert msecsArray[4..] == BigEndian(Units(ticks), 4);
    forall k | 0 <= k < 2 {
      guidArray[10 + k] := daysArray[2 + k];
    }
    forall k | 0 <= k < 4 {
      guidArray[12 + k] := msecsArray[4 + k];
    }
    assert guidArray[10..12] == daysArray[2..] && guidArray[12..] == msecsArray[4..];
    assert guidArray[10..] == guidArray[10..12] + guidArray[12..];
  }

  function TimeKey(ticks: nat): seq<Byte> {
    BigEndian(Days(ticks), 2) + BigEndian(Units(ticks), 4)
  }

  // ----- What the key is -----

  lemma KeyPowers()
    ensures Power(2) == DAYS_IN_KEY && Power(4) == UNITS_IN_KEY
  {
  }

  lemma UnitsFit(ticks: nat)
    ensures Units(ticks) < UNITS_IN_KEY
  {
  }

  /** The key as a number: the days, cut to 16 bits, and the units of the day, never cut. */
  lemma KeyValue(ticks: nat)
    ensures Value(TimeKey(ticks)) == Days(ticks) % DAYS_IN_KEY * UNITS_IN_KEY + Units(ticks)
  {
    ValueConcat(BigEndian(Days(ticks), 2), BigEndian(Units(ticks), 4));
    ValueOfBytes(Days(ticks), 2);
    ValueOfBytes(Units(ticks), 4);
    UnitsFit(ticks);
    KeyPowers();
  }

  /** What a key tells of its time: read as a number it gives a day and a unit of the day, counted modulo 65536 days,
      and the time was in that day and in that unit of 33333.33 ticks. */
  lemma KeyTellsTime(ticks: nat)
    ensures var day, unit := Value(TimeKey(ticks)) / 0x1_0000_0000, Value(TimeKey(ticks)) % 0x1_0000_0000;
      var rest := ticks % (65_536 * 864_000_000_000) - day * 864_000_000_000;
      0 <= rest < 864_000_000_000 && 3_333_333 * unit <= 100 * rest < 3_333_333 * (unit + 1)
  {
    KeyValue(ticks);
    UnitsFit(ticks);
    KeyParts(Value(TimeKey(ticks)), Days(ticks) % DAYS_IN_KEY, Units(ticks));
    TimeInCycle(ticks, Days(ticks));
    UnitBounds(ticks, Units(ticks));
  }

  lemma KeyParts(v: nat, day: nat, unit: nat)
    requires v == day * UNITS_IN_KEY + unit && unit < UNITS_IN_KEY
    ensures v / 0x1_0000_0000 == day && v % 0x1_0000_0000 == unit
  {
  }

  lemma UnitBounds(ticks: nat, unit: nat)
    requires unit == Units(ticks)
    ensures 3_333_333 * unit <= 100 * (ticks % 864_000_000_000) < 3_333_333 * (unit + 1)
  {
  }

  lemma TimeInCycle(ticks: nat, days: nat)
    requires days == Days(ticks)
    ensures ticks % (65_536 * 864_000_000_000) == days % 65_536 * 864_000_000_000 + ticks % 864_000_000_000
  {
    RemainderUnique(ticks, 65_536 * 864_000_000_000, days / 65_536,
                    days % 65_536 * 864_000_000_000 + ticks % 864_000_000_000);
  }

  /** Byte by byte, the first difference decides. */
  predicate BytesLess(a: seq<Byte>, b: seq<Byte>)
    requires |a| == |b|
  {
    a != [] && (BytesLess(a[..|a| - 1], b[..|b| - 1]) ||
                (a[..|a| - 1] == b[..|b| - 1] && a[|a| - 1] < b[|b| - 1]))
  }

  lemma {:induction false} ByteOrderIsValueOrder(a: seq<Byte>, b: seq<Byte>)
    requires |a| == |b|
    ensures BytesLess(a, b) <==> Value(a) < Value(b)
    ensures a == b <==> Value(a) == Value(b)
  {
    if a != [] {
      ByteOrderIsValueOrder(a[..|a| - 1], b[..|b| - 1]);
      assert a == a[..|a| - 1] + [a[|a| - 1]] && b == b[..|b| - 1] + [b[|b| - 1]];
    }
  }

  /** Within the same 65536 days keys never go backwards, and 33334 ticks, under 3.4 milliseconds, later they
      have gone forwards. */
  lemma KeysFollowTime(t: nat, u: nat)
    requires t <= u && Days(t) / DAYS_IN_KEY == Days(u) / DAYS_IN_KEY
    ensures !BytesLess(TimeKey(u), TimeKey(t))
    ensures u - t >= 33_334 ==> BytesLess(TimeKey(t), TimeKey(u))
  {
    KeyValue(t);
    KeyValue(u);
    UnitsFit(t);
    UnitsFit(u);
    ByteOrderIsValueOrder(TimeKey(t), TimeKey(u));
    ByteOrderIsValueOrder(TimeKey(u), TimeKey(t));
    if Days(t) == Days(u) {
      UnitsFollowTime(t, u);
    } else {
      assert Days(t) < Days(u) && Days(t) % DAYS_IN_KEY < Days(u) % DAYS_IN_KEY;
    }
  }

  lemma UnitsFollowTime(t: nat, u: nat)
    requires t <= u && Days(t) == Days(u)
    ensures Units(t) <= Units(u) && (u - t >= 33_334 ==> Units(t) < Units(u))
  {
    assert u % TICKS_PER_DAY - t % TICKS_PER_DAY == u - t;
  }

  /** Keys do go backwards when the 16 bits of days run over, on day 65536. */
  lemma KeysWrapOnDay65536()
    ensures BytesLess(TimeKey(DAYS_IN_KEY * TICKS_PER_DAY), TimeKey(DAYS_IN_KEY * TICKS_PER_DAY - 1))
  {
    var t, u := DAYS_IN_KEY * TICKS_PER_DAY - 1, DAYS_IN_KEY * TICKS_PER_DAY;
    KeyValue(t);
    KeyValue(u);
    ByteOrderIsValueOrder(TimeKey(u), TimeKey(t));
  }

  /** Keys follow time up to a limit exactly when the limit comes before day 65536. */
  lemma KeysFollowTimeExactlyBeforeDay65536(limit: nat)
    ensures limit < DAYS_IN_KEY * TICKS_PER_DAY <==>
      forall t: nat, u: nat | t <= u <= limit :: !BytesLess(TimeKey(u), TimeKey(t))
  {
    if limit < DAYS_IN_KEY * TICKS_PER_DAY {
      forall t: nat, u: nat | t <= u <= limit
        ensures !BytesLess(TimeKey(u), TimeKey(t))
      {
        KeysFollowTime(t, u);
      }
    } else {
      KeysWrapOnDay65536();
    }
  }
}
