/** Packets by day, and the order in which both engines walk the days: latest first. */
module Days {
  import opened Events
  import opened Answer

  /** The packets of a day, in order. */
  function OnDay(s: seq<Packet>, day: U64): seq<Packet> {
    if s == [] then []
    else
      var last := s[|s| - 1];
      OnDay(s[..|s| - 1], day) + (if UnixDay(last) == day then [last] else [])
  }

  lemma OnDayMembers(s: seq<Packet>, day: U64)
    ensures forall p :: p in OnDay(s, day) <==> p in s && UnixDay(p) == day
  {
    if s != [] {
      OnDayMembers(s[..|s| - 1], day);
      assert s == s[..|s| - 1] + [s[|s| - 1]];
    }
  }

  function DaysIn(s: seq<Packet>): set<U64> {
    set i | 0 <= i < |s| :: UnixDay(s[i])
  }

  lemma NoDays()
    ensures DaysIn([]) == {} && forall day :: OnDay([], day) == []
  {
  }

  lemma OnDayNext(s: seq<Packet>, i: nat)
    requires i < |s|
    ensures DaysIn(s[..i + 1]) == DaysIn(s[..i]) + {UnixDay(s[i])}
    ensures forall day :: OnDay(s[..i + 1], day) == OnDay(s[..i], day) + (if UnixDay(s[i]) == day then [s[i]] else [])
  {
    assert s[..i + 1][..i] == s[..i];
    assert forall k :: 0 <= k < i ==> s[..i + 1][k] == s[..i][k];
  }

  method GroupByDay(hot: seq<Packet>) returns (byDay: map<U64, seq<Packet>>)
    ensures byDay.Keys == DaysIn(hot)
    ensures forall day :: day in byDay ==> byDay[day] == OnDay(hot, day)
    ensures forall day :: day !in byDay ==> OnDay(hot, day) == []
  {
    hide UnixDay, DaysIn, OnDay;
    NoDays();
    byDay := map[];
    for i := 0 to |hot|
      invariant byDay.Keys == DaysIn(hot[..i])
      invariant forall day :: day in byDay ==> byDay[day] == OnDay(hot[..i], day)
      invariant forall day :: day !in byDay ==> OnDay(hot[..i], day) == []
    {
      var day := UnixDay(hot[i]);
      var sofar := if day in byDay then byDay[day] else [];
      byDay := byDay[day := sofar + [hot[i]]];
      OnDayNext(hot, i);
    }
    assert hot[..|hot|] == hot;
  }

  method LatestDay(days: set<U64>) returns (latest: U64)
    requires days != {}
    ensures latest in days && forall day :: day in days ==> day <= latest
  {
    latest :| latest in days;
    var rest := days - {latest};
    while rest != {}
      invariant rest <= days && latest in days
      invariant forall day :: day in days && day !in rest ==> day <= latest
      decreases rest
    {
      var day :| day in rest;
      rest := rest - {day};
      if latest < day {
        latest := day;
      }
    }
  }

  function PartitionOf(partitions: map<U64, seq<Packet>>, day: U64): seq<Packet> {
    if day in partitions then partitions[day] else []
  }

  function Today(all: set<Packet>, day: U64): set<Packet> {
    set p | p in all && UnixDay(p) == day
  }

  /** The packets of all days but the given ones. */
  function SettledDays(all: set<Packet>, days: set<U64>): set<Packet> {
    set p | p in all && UnixDay(p) !in days
  }

  /** The days left are older than those taken. */
  predicate OldestLeft(days: set<U64>, listed: set<U64>) {
    days <= listed && forall d, e :: d in days && e in listed && e !in days ==> d < e
  }

  lemma AheadIsNoOlder(q: Packet, p: Packet)
    requires Before(q, p)
    ensures UnixDay(p) <= UnixDay(q)
  {
  }

  lemma SettledDaysDownClosed(all: set<Packet>, days: set<U64>, listed: set<U64>)
    requires forall p :: p in all ==> UnixDay(p) in listed
    requires OldestLeft(days, listed)
    ensures DownClosed(all, SettledDays(all, days))
  {
    hide Before, UnixDay;
    forall p, q | p in SettledDays(all, days) && q in all && Before(q, p)
      ensures q in SettledDays(all, days)
    {
      AheadIsNoOlder(q, p);
    }
  }

  /** Taking the latest day settles exactly that day, after all later ones. */
  lemma LatestDayNext(all: set<Packet>, days: set<U64>, listed: set<U64>, day: U64)
    requires forall p :: p in all ==> UnixDay(p) in listed
    requires day in days && OldestLeft(days, listed)
    requires forall d :: d in days ==> d <= day
    ensures OldestLeft(days - {day}, listed)
    ensures SettledDays(all, days) + Today(all, day) == SettledDays(all, days - {day})
    ensures SettledDays(all, days) !! Today(all, day)
    ensures DownClosed(all, SettledDays(all, days))
    ensures DownClosed(all, SettledDays(all, days) + Today(all, day))
  {
    assert SettledDays(all, days) + Today(all, day) == SettledDays(all, days - {day});
    SettledDaysDownClosed(all, days, listed);
    SettledDaysDownClosed(all, days - {day}, listed);
  }
}
