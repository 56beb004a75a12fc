/** The `debounce` helper: a single pending slot. Each call cancels the
    scheduled run, if any, and schedules a new one holding this call's
    arguments; when the timer fires, the scheduled run executes once and the
    slot is empty again. Real time is replaced by an explicit fire step. */
module Debounce {
  import opened Js

  datatype Timer<A> = Idle | Scheduled(args: A)

  /** A call cancels the run that was scheduled, if any, and schedules one
      with its own arguments. */
  function Call<A>(t: Timer<A>, args: A): (t': Timer<A>)
    ensures t'.Scheduled? && t'.args == args
  {
    Scheduled(args)
  }

  datatype Firing<A> = Firing(run: Option<A>, after: Timer<A>)

  /** The timer elapses: `later` runs the wrapped function with the
      scheduled arguments; with nothing scheduled nothing runs. */
  function Fire<A>(t: Timer<A>): (f: Firing<A>)
    ensures f.after == Idle
    ensures t.Idle? <==> f.run.None?
    ensures t.Scheduled? ==> f.run == Some(t.args)
  {
    match t
    case Idle => Firing(None, Idle)
    case Scheduled(args) => Firing(Some(args), Idle)
  }

  /** A run of calls with no fire in between. */
  function CallAll<A>(t: Timer<A>, calls: seq<A>): Timer<A>
    decreases |calls|
  {
    if calls == [] then t else CallAll(Call(t, calls[0]), calls[1..])
  }

  /** Any non-empty run of calls leaves exactly one pending run, with the
      last call's arguments. */
  lemma {:induction false} Coalesce<A>(t: Timer<A>, calls: seq<A>)
    requires calls != []
    ensures CallAll(t, calls) == Scheduled(calls[|calls| - 1])
    decreases |calls|
  {
    if |calls| > 1 {
      Coalesce(Call(t, calls[0]), calls[1..]);
    }
  }

  /** Firing after such a run executes the last call once, and firing again
      executes nothing. */
  lemma FireOnce<A>(t: Timer<A>, calls: seq<A>)
    requires calls != []
    ensures Fire(CallAll(t, calls)).run == Some(calls[|calls| - 1])
    ensures Fire(Fire(CallAll(t, calls)).after).run == None
  {
    Coalesce(t, calls);
  }
}
