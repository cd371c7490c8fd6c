/** Events, as far as the operators look at them; `rest` stands for all other fields. */
module Events {
  datatype Event = Event(
    host: string, service: string, state: string,
    hasTime: bool, time: int, hasTtl: bool, ttl: real, rest: int)

  predicate SortedByTime(s: seq<Event>)
  {
    forall i, j :: 0 <= i < j < |s| ==> s[i].time <= s[j].time
  }
}
