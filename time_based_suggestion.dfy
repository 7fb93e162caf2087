// The TimeBasedSuggestion component: the hour of the day picks one of five
// meal times, each with a fixed list of foods to suggest, and a clock badge
// shows the time as HH:MM. The state is refreshed by a once-a-minute tick.

module TimeBasedSuggestion {
  import opened Lists
  import opened JsString

  /** What Date.prototype.getHours and getMinutes can return. */
  type Hour = h: int | 0 <= h < 24
  type Minute = m: int | 0 <= m < 60

  /** The two fields of a clock reading the component looks at. */
  datatype ClockTime = ClockTime(hour: Hour, minute: Minute)

  datatype TimeOfDay = Morning | Noon | Afternoon | Evening | Night

  /** The foods suggested for each time of day. */
  function Suggestions(t: TimeOfDay): (foods: seq<string>)
    ensures foods != []
    ensures Distinct(foods)
  {
    match t
    case Morning => ["粥", "包子", "豆浆", "油条", "煎饼果子", "三明治", "面包", "牛奶"]
    case Noon => ["盖浇饭", "炒饭", "面条", "快餐", "便当", "沙拉", "汉堡", "披萨"]
    case Afternoon => ["奶茶", "咖啡", "甜点", "蛋糕", "水果", "冰淇淋", "小吃"]
    case Evening => ["火锅", "烤肉", "炒菜", "海鲜", "烧烤", "麻辣烫", "饺子", "寿司"]
    case Night => ["夜宵", "烧烤", "麻辣烫", "关东煮", "炸鸡", "泡面", "粥", "小龙虾"]
  }

  /** The hours each time of day covers; night wraps around midnight. */
  predicate InBucket(t: TimeOfDay, hour: Hour) {
    match t
    case Morning => 5 <= hour < 10
    case Noon => 10 <= hour < 14
    case Afternoon => 14 <= hour < 17
    case Evening => 17 <= hour < 22
    case Night => hour < 5 || 22 <= hour
  }

  /** The time of day an hour falls in: the one and only bucket covering it. */
  function GetTimeOfDay(hour: Hour): (t: TimeOfDay)
    ensures InBucket(t, hour)
    ensures forall u :: InBucket(u, hour) ==> u == t
  {
    if 5 <= hour < 10 then Morning
    else if 10 <= hour < 14 then Noon
    else if 14 <= hour < 17 then Afternoon
    else if 17 <= hour < 22 then Evening
    else Night
  }

  /** The first and last hour of each bucket, and the hours either side of it. */
  lemma BucketBoundaries()
    ensures GetTimeOfDay(4) == Night && GetTimeOfDay(5) == Morning
    ensures GetTimeOfDay(9) == Morning && GetTimeOfDay(10) == Noon
    ensures GetTimeOfDay(13) == Noon && GetTimeOfDay(14) == Afternoon
    ensures GetTimeOfDay(16) == Afternoon && GetTimeOfDay(17) == Evening
    ensures GetTimeOfDay(21) == Evening && GetTimeOfDay(22) == Night
    ensures GetTimeOfDay(23) == Night && GetTimeOfDay(0) == Night
  {
  }

  /** `n.toString().padStart(2, '0')`: one field of the clock badge. */
  function ClockField(n: nat): (r: string)
    ensures n < 100 ==> |r| == 2
    ensures AllDigits(r) && ParseDecimal(r) == n
  {
    var digits := NatToString(n);
    ParseNatToString(n);
    ParseZeroPadded(digits, 2);
    PadStart(digits, 2, '0')
  }

  /** The clock badge: two digits of hour, a colon, two digits of minute. */
  function ClockLabel(t: ClockTime): (r: string)
    ensures |r| == 5 && r[2] == ':'
    ensures AllDigits(r[..2]) && ParseDecimal(r[..2]) == t.hour
    ensures AllDigits(r[3..]) && ParseDecimal(r[3..]) == t.minute
  {
    var h, m := ClockField(t.hour), ClockField(t.minute);
    var r := h + ":" + m;
    assert r[..2] == h && r[3..] == m;
    r
  }

  /** The state of one TimeBasedSuggestion component. */
  class TimeBasedSuggestionState {
    var timeOfDay: TimeOfDay
    var currentTime: ClockTime

    /** The badge and the bucket agree on the hour. */
    predicate InSync()
      reads this
    {
      timeOfDay == GetTimeOfDay(currentTime.hour)
    }

    /**
     * Mounting. The two pieces of state are initialised from two separate
     * clock readings: `bucketHour` is the hour the bucket is computed from,
     * `now` the time the badge shows.
     */
    constructor (bucketHour: Hour, now: ClockTime)
      ensures timeOfDay == GetTimeOfDay(bucketHour) && currentTime == now
      ensures now.hour == bucketHour ==> InSync()
    {
      timeOfDay := GetTimeOfDay(bucketHour);
      currentTime := now;
    }

    /**
     * The once-a-minute refresh. It stores the clock reading `now` for the
     * badge and recomputes the bucket from a second reading, `bucketHour`;
     * nothing else changes.
     */
    method Tick(now: ClockTime, bucketHour: Hour)
      modifies this
      ensures currentTime == now && timeOfDay == GetTimeOfDay(bucketHour)
      ensures now.hour == bucketHour ==> InSync()
    {
      currentTime := now;
      timeOfDay := GetTimeOfDay(bucketHour);
    }

    /** Clicking the `k`-th suggested food hands that food to the parent. */
    method ClickSuggestion(k: nat) returns (food: string)
      requires k < |Suggestions(timeOfDay)|
      ensures food == Suggestions(timeOfDay)[k]
      ensures food in Suggestions(timeOfDay)
    {
      var foods := Suggestions(timeOfDay);
      food := foods[k];
    }
  }
}
