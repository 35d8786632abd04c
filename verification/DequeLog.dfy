/** A queue seen from outside: the events at its two ends, replayed on a plain list. */
module DequeLog {

  datatype Event<T> = Back(item: T) | Front(item: T) | Pop(item: T) | Clear

  datatype Replayed<T> = Stuck | Holding(items: seq<T>)

  function Next<T(==)>(r: Replayed<T>, e: Event<T>): Replayed<T> {
    match r
    case Stuck => Stuck
    case Holding(q) =>
      match e
      case Back(x) => Holding(q + [x])
      case Front(x) => Holding([x] + q)
      case Pop(x) => if q != [] && q[0] == x then Holding(q[1..]) else Stuck
      case Clear => Holding([])
  }

  /** Gets stuck when something is taken out that is not at the front. */
  function Replay<T(==)>(log: seq<Event<T>>): Replayed<T> {
    if log == [] then Holding([]) else Next(Replay(log[..|log| - 1]), log[|log| - 1])
  }

  lemma ReplayStep<T>(log: seq<Event<T>>, e: Event<T>)
    ensures Replay(log + [e]) == Next(Replay(log), e)
  {
    assert (log + [e])[..|log|] == log;
  }
}
