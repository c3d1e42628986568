/** The single-flight job protocol between the interface and the background worker: a running
    flag and a first-in first-out message queue (controllers/thread_coordinator.py). Starting
    the worker thread and the worker finishing are separate, explicit steps. */
module Coordination {
  import opened Wrappers
  import opened Results

  /** A queued message: progress text, the finished results, or an error text. */
  datatype Message = Progress(message: string) | Complete(results: ExtractionResults) | Failure(message: string)

  /** The coordinator's fields, plus how many workers were started and how many finished. */
  datatype CoordinatorState = CoordinatorState(isRunning: bool, queue: seq<Message>, started: nat, finished: nat)

  function InitialCoordinator(): CoordinatorState {
    CoordinatorState(false, [], 0, 0)
  }

  /** `start_extraction`: while a worker runs, only an error message is queued; otherwise the
      queue is emptied, the flag set and a worker started. */
  function StartStep(c: CoordinatorState): CoordinatorState {
    if c.isRunning then c.(queue := c.queue + [Failure("Extraction already in progress")])
    else c.(queue := [], isRunning := true, started := c.started + 1)
  }

  /** The message a worker's outcome turns into. */
  function Terminal(outcome: Result<ExtractionResults>): Message {
    match outcome
    case Ok(r) => Complete(r)
    case Err(e) => Failure(e)
  }

  /** `_worker_wrapper` finishing: one terminal message, and the flag cleared either way. */
  function FinishStep(c: CoordinatorState, outcome: Result<ExtractionResults>): CoordinatorState {
    c.(queue := c.queue + [Terminal(outcome)], isRunning := false, finished := c.finished + 1)
  }

  function SendStep(c: CoordinatorState, m: Message): CoordinatorState {
    c.(queue := c.queue + [m])
  }

  /** `check_messages`: everything queued, and an empty queue. */
  function DrainStep(c: CoordinatorState): (seq<Message>, CoordinatorState) {
    (c.queue, c.(queue := []))
  }

  /** At most one worker is in flight, and the flag says whether one is. */
  predicate SingleFlight(c: CoordinatorState) {
    c.started == c.finished + (if c.isRunning then 1 else 0)
  }

  /** Every step keeps at most one worker in flight; a worker finishes only while one runs. */
  lemma StepsKeepSingleFlight(c: CoordinatorState, m: Message, outcome: Result<ExtractionResults>)
    requires SingleFlight(c)
    ensures SingleFlight(InitialCoordinator())
    ensures SingleFlight(StartStep(c)) && SingleFlight(SendStep(c, m)) && SingleFlight(DrainStep(c).1)
    ensures c.isRunning ==> SingleFlight(FinishStep(c, outcome))
    ensures StartStep(c).isRunning && (c.isRunning ==> StartStep(c).started == c.started)
  {
  }

  function Progresses(texts: seq<string>): (r: seq<Message>)
    ensures |r| == |texts|
    ensures forall i :: 0 <= i < |texts| ==> r[i] == Progress(texts[i])
  {
    if texts == [] then [] else Progresses(texts[..|texts| - 1]) + [Progress(texts[|texts| - 1])]
  }

  function SendAll(c: CoordinatorState, texts: seq<string>): CoordinatorState {
    if texts == [] then c else SendStep(SendAll(c, texts[..|texts| - 1]), Progress(texts[|texts| - 1]))
  }

  lemma {:induction false} SendAllAppends(c: CoordinatorState, texts: seq<string>)
    ensures SendAll(c, texts) == c.(queue := c.queue + Progresses(texts))
  {
    if texts != [] {
      SendAllAppends(c, texts[..|texts| - 1]);
    }
  }

  /** One job started on an idle coordinator: draining after it finishes yields exactly its
      progress messages in order, then its single terminal message; nothing older survives,
      and the coordinator is idle again. */
  lemma {:induction false} JobMessages(c: CoordinatorState, texts: seq<string>, outcome: Result<ExtractionResults>)
    requires !c.isRunning
    ensures var after := FinishStep(SendAll(StartStep(c), texts), outcome);
      DrainStep(after).0 == Progresses(texts) + [Terminal(outcome)]
      && !after.isRunning && DrainStep(after).1.queue == []
  {
    SendAllAppends(StartStep(c), texts);
  }

  /** A second start while running neither clears the queue nor starts a worker. */
  lemma StartWhileRunning(c: CoordinatorState)
    requires c.isRunning
    ensures StartStep(c).queue[..|c.queue|] == c.queue
    ensures StartStep(c).queue[|c.queue|] == Failure("Extraction already in progress")
    ensures StartStep(c).started == c.started && StartStep(c).isRunning
  {
  }

  class ThreadCoordinator {
    var isRunning: bool
    var queue: seq<Message>
    ghost var started: nat
    ghost var finished: nat

    ghost function View(): CoordinatorState
      reads this
    {
      CoordinatorState(isRunning, queue, started, finished)
    }

    constructor ()
      ensures View() == InitialCoordinator()
    {
      isRunning := false;
      queue := [];
      started := 0;
      finished := 0;
    }

    /** `start_extraction`; `launched` says a worker was started. */
    method StartExtraction() returns (launched: bool)
      modifies this
      ensures View() == StartStep(old(View()))
      ensures launched <==> !old(isRunning)
    {
      if isRunning {
        SendError("Extraction already in progress");
        return false;
      }
      ClearQueue();
      isRunning := true;
      started := started + 1;
      return true;
    }

    /** The worker wrapper after the job returned `Ok(results)` or raised `Err(text)`. */
    method FinishWorker(outcome: Result<ExtractionResults>)
      requires isRunning
      modifies this
      ensures View() == FinishStep(old(View()), outcome)
    {
      match outcome {
        case Ok(r) => SendComplete(r);
        case Err(e) => SendError(e);
      }
      isRunning := false;
      finished := finished + 1;
    }

    method SendProgress(message: string)
      modifies this
      ensures View() == SendStep(old(View()), Progress(message))
    {
      queue := queue + [Progress(message)];
    }

    method SendComplete(results: ExtractionResults)
      modifies this
      ensures View() == SendStep(old(View()), Complete(results))
    {
      queue := queue + [Complete(results)];
    }

    method SendError(message: string)
      modifies this
      ensures View() == SendStep(old(View()), Failure(message))
    {
      queue := queue + [Failure(message)];
    }

    /** `check_messages`: takes messages from the head until the queue is empty. */
    method CheckMessages() returns (messages: seq<Message>)
      modifies this
      ensures (messages, View()) == DrainStep(old(View()))
    {
      messages := [];
      while queue != []
        invariant messages + queue == old(queue)
        invariant View() == old(View()).(queue := queue)
        decreases |queue|
      {
        messages := messages + [queue[0]];
        queue := queue[1..];
      }
      assert messages + [] == messages;
    }

    method IsRunning() returns (b: bool)
      ensures b == isRunning
    {
      b := isRunning;
    }

    /** `_clear_queue`: takes messages from the head until the queue is empty. */
    method ClearQueue()
      modifies this
      ensures View() == old(View()).(queue := [])
    {
      while queue != []
        invariant View() == old(View()).(queue := queue)
        decreases |queue|
      {
        queue := queue[1..];
      }
    }
  }

  /** The callable a job uses to report progress through its coordinator. */
  class ProgressReporter {
    const coordinator: ThreadCoordinator

    constructor (coordinator: ThreadCoordinator)
      ensures this.coordinator == coordinator
    {
      this.coordinator := coordinator;
    }

    /** `report`, and calling the reporter: one progress message at the tail. */
    method Report(message: string)
      modifies coordinator
      ensures coordinator.View() == SendStep(old(coordinator.View()), Progress(message))
    {
      coordinator.SendProgress(message);
    }
  }
}
