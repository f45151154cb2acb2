/** The database type converters: enums stored by name, unknown names read back as a fixed default. */
module Converters {
  import opened Wrappers
  import opened Model

  function FromPriority(p: Priority): (s: string)
    ensures PriorityValueOf(s) == Some(p)
  {
    PriorityName(p)
  }

  /** valueOf with IllegalArgumentException answered by MEDIUM; total. */
  function ToPriority(s: string): (p: Priority)
    ensures p == Medium || FromPriority(p) == s
    ensures (forall q :: FromPriority(q) != s) ==> p == Medium
  {
    PriorityValueOf(s).GetOr(Medium)
  }

  lemma PriorityRoundTrip(p: Priority)
    ensures ToPriority(FromPriority(p)) == p
  {
  }

  /** A stored string decodes to p exactly when it is p's name, or p is the fallback and the name is unknown. */
  lemma ToPriorityExactly(s: string, p: Priority)
    ensures ToPriority(s) == p <==> s == FromPriority(p) || (p == Medium && PriorityValueOf(s) == None)
  {
    if s == FromPriority(p) {
      PriorityRoundTrip(p);
    }
  }

  function FromDayOfWeek(d: DayOfWeek): (s: string)
    ensures DayValueOf(s) == Some(d)
  {
    DayName(d)
  }

  /** valueOf with IllegalArgumentException answered by MONDAY; total. */
  function ToDayOfWeek(s: string): (d: DayOfWeek)
    ensures d == Monday || FromDayOfWeek(d) == s
    ensures (forall e :: FromDayOfWeek(e) != s) ==> d == Monday
  {
    DayValueOf(s).GetOr(Monday)
  }

  lemma DayOfWeekRoundTrip(d: DayOfWeek)
    ensures ToDayOfWeek(FromDayOfWeek(d)) == d
  {
  }

  lemma ToDayOfWeekExactly(s: string, d: DayOfWeek)
    ensures ToDayOfWeek(s) == d <==> s == FromDayOfWeek(d) || (d == Monday && DayValueOf(s) == None)
  {
    if s == FromDayOfWeek(d) {
      DayOfWeekRoundTrip(d);
    }
  }
}
