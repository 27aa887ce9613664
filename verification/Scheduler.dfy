/** What a thread pool promises its users: accepted jobs start in order, each once and on a free
    worker, and the jobs that finished are those whose worker became free again. */
module Scheduler {

  datatype Jobs<J> = Jobs(pending: seq<J>, running: map<nat, J>, finished: seq<J>)

  datatype Action<J> = Stutter | Accept(job: J) | Start(worker: nat) | Finish(worker: nat)

  ghost predicate Step<J>(a: Jobs<J>, action: Action<J>, b: Jobs<J>) {
    match action
    case Stutter => b == a
    case Accept(job) => b == a.(pending := a.pending + [job])
    case Start(worker) =>
      && a.pending != [] && worker !in a.running
      && b == a.(pending := a.pending[1..], running := a.running[worker := a.pending[0]])
    case Finish(worker) =>
      && worker in a.running
      && b == a.(running := a.running - {worker}, finished := a.finished + [a.running[worker]])
  }
}
