/** Points in time, and the two ways in which the source asks whether one has passed. */
module Instants {
  const SECONDS_PER_DAY := 86_400

  /** An instant is a number of seconds since 1970-01-01 00:00 UTC. */
  function Day(instant: nat): nat {
    instant / SECONDS_PER_DAY
  }

  /** `expires_at > CURRENT_TIMESTAMP`, as SQLite decides it: the stored text has a 'T' between
      date and time and the current one a blank, so on the day of expiry the stored text is the
      greater one whatever the time (`LaterText`, `DateTexts.SqlComparesDays`). */
  predicate OpenInSql(expiresAt: nat, now: nat) {
    Day(expiresAt) >= Day(now)
  }

  lemma DayIsMonotone(a: nat, b: nat)
    requires a <= b
    ensures Day(a) <= Day(b)
  {
  }

  /** What has not expired is open in SQL; what has expired is open until its day is over. */
  lemma OpenPastExpiryIffSameDay(expiresAt: nat, now: nat)
    ensures expiresAt > now ==> OpenInSql(expiresAt, now)
    ensures expiresAt <= now ==> (OpenInSql(expiresAt, now) <==> Day(now) == Day(expiresAt))
  {
    if expiresAt > now {
      DayIsMonotone(now, expiresAt);
    } else {
      DayIsMonotone(expiresAt, now);
    }
  }

  // ---- the comparison of the texts -------------------------------------------------------

  /** The order of texts, character by character. */
  predicate Less(a: string, b: string) {
    b != [] && (a == [] || a[0] < b[0] || (a[0] == b[0] && Less(a[1..], b[1..])))
  }

  /** A stored instant in the form `2024-05-01T11:00:00+00:00`, the current one in the form
      `2024-05-01 12:00:00`: the dates alone decide, and equal dates decide for the stored one. */
  lemma {:induction false} LaterText(nowDate: string, nowTime: string, date: string, time: string)
    requires |nowDate| == |date|
    ensures Less(nowDate + " " + nowTime, date + "T" + time) <==> nowDate == date || Less(nowDate, date)
    decreases |date|
  {
    var a, b := nowDate + " " + nowTime, date + "T" + time;
    if date == [] {
      assert a[0] == ' ' && b[0] == 'T';
    } else {
      assert a[1..] == nowDate[1..] + " " + nowTime;
      assert b[1..] == date[1..] + "T" + time;
      assert nowDate == [nowDate[0]] + nowDate[1..] && date == [date[0]] + date[1..];
      LaterText(nowDate[1..], nowTime, date[1..], time);
    }
  }
}
