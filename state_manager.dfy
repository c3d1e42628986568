/** The owner of the application state: it gates the start of processing, delegates every
    change to the state object, hands out copies and notifies observers after each change
    (controllers/state_manager.py). */
module StateManagement {
  import opened Text
  import opened Documents
  import opened Keywords
  import opened Results
  import opened AppState

  /** A registered callback, known by identity. */
  type ObserverId = nat

  /** One call of an observer with a copy of the state; `raised` says the callback failed,
      which is reported and does not stop the delivery. */
  datatype Delivery = Delivery(observer: ObserverId, snapshot: AppSnapshot, raised: bool)

  /** The calls one notification makes: every observer, in registration order. */
  function Deliveries(observers: seq<ObserverId>, snapshot: AppSnapshot, failing: set<ObserverId>): seq<Delivery> {
    if observers == [] then []
    else
      var last := observers[|observers| - 1];
      Deliveries(observers[..|observers| - 1], snapshot, failing) + [Delivery(last, snapshot, last in failing)]
  }

  /** The number of calls made to `o`. */
  function CallsTo(ds: seq<Delivery>, o: ObserverId): nat {
    if ds == [] then 0
    else CallsTo(ds[..|ds| - 1], o) + (if ds[|ds| - 1].observer == o then 1 else 0)
  }

  predicate NoDuplicates(s: seq<ObserverId>) {
    forall i, j :: 0 <= i < j < |s| ==> s[i] != s[j]
  }

  /** A notification calls each registered observer exactly once, failing or not, and nobody
      else; every call carries the same snapshot. */
  lemma {:induction false} DeliveriesReachEachOnce(observers: seq<ObserverId>, snapshot: AppSnapshot, failing: set<ObserverId>, o: ObserverId)
    requires NoDuplicates(observers)
    ensures CallsTo(Deliveries(observers, snapshot, failing), o) == (if o in observers then 1 else 0)
    ensures forall d | d in Deliveries(observers, snapshot, failing) :: d.snapshot == snapshot && (d.raised <==> d.observer in failing)
  {
    if observers != [] {
      var init := observers[..|observers| - 1];
      var last := observers[|observers| - 1];
      assert NoDuplicates(init);
      DeliveriesReachEachOnce(init, snapshot, failing, o);
      var ds := Deliveries(observers, snapshot, failing);
      assert ds[..|ds| - 1] == Deliveries(init, snapshot, failing);
      assert observers == init + [last];
      assert last !in init;
    }
  }

  /** `list.remove`: drops the first occurrence of `x`. */
  function RemoveFirst(s: seq<ObserverId>, x: ObserverId): (r: seq<ObserverId>)
    ensures x !in s ==> r == s
    ensures x in s ==> |r| == |s| - 1
  {
    if s == [] then []
    else if s[0] == x then s[1..]
    else [s[0]] + RemoveFirst(s[1..], x)
  }

  /** On a list without duplicates, removing the first occurrence removes the observer
      altogether and keeps the others in order and without duplicates. */
  lemma {:induction false} RemoveFirstMeaning(s: seq<ObserverId>, x: ObserverId)
    requires NoDuplicates(s)
    ensures x !in RemoveFirst(s, x)
    ensures NoDuplicates(RemoveFirst(s, x))
    ensures forall y :: y in RemoveFirst(s, x) <==> y in s && y != x
  {
    if s != [] {
      assert NoDuplicates(s[1..]);
      RemoveFirstMeaning(s[1..], x);
      if s[0] == x {
        assert x !in s[1..];
      } else {
        assert s[0] !in s[1..];
        assert s == [s[0]] + s[1..];
      }
    }
  }

  /** Registering appends only a callback that is not yet there, so no callback is ever
      registered twice. */
  lemma AddObserverKeepsUnique(s: seq<ObserverId>, x: ObserverId)
    requires NoDuplicates(s)
    ensures NoDuplicates(if x in s then s else s + [x])
    ensures x in (if x in s then s else s + [x])
  {
    if x !in s {
      var t := s + [x];
      forall i, j | 0 <= i < j < |t| ensures t[i] != t[j] {
        if j == |s| {
          assert t[i] == s[i];
        }
      }
    }
  }

  class StateManager {
    const state: ApplicationState
    var observers: seq<ObserverId>
    /** Every observer call made so far, in order. */
    var delivered: seq<Delivery>
    /** The callbacks that raise when called. */
    const failing: set<ObserverId>

    /** Registered callbacks are distinct and the managed state is consistent. */
    predicate Valid()
      reads this, state
    {
      NoDuplicates(observers) && Consistent(state.Snapshot())
    }

    constructor (failing: set<ObserverId>)
      ensures Valid() && fresh(state)
      ensures state.Snapshot() == Initial() && observers == [] && delivered == []
      ensures this.failing == failing
    {
      state := new ApplicationState();
      observers := [];
      delivered := [];
      this.failing := failing;
    }

    /** `get_state`: a copy; being a value, nothing done to it reaches the managed state. */
    method GetState() returns (s: AppSnapshot)
      ensures s == state.Snapshot()
    {
      s := state.Snapshot();
    }

    /** `_notify_observers`: the registered callbacks, in order, each with the same copy. */
    method Notify()
      modifies this
      ensures observers == old(observers)
      ensures delivered == old(delivered) + Deliveries(observers, state.Snapshot(), failing)
    {
      var snapshot := state.Snapshot();
      var current := observers;
      var i := 0;
      while i < |current|
        invariant 0 <= i <= |current| && observers == current
        invariant delivered == old(delivered) + Deliveries(current[..i], snapshot, failing)
      {
        assert current[..i + 1][..i] == current[..i];
        delivered := delivered + [Delivery(current[i], snapshot, current[i] in failing)];
        i := i + 1;
      }
      assert current[..i] == current;
    }

    method SetDocument(d: DocumentInfo)
      requires Valid()
      modifies this, state
      ensures Valid() && observers == old(observers)
      ensures state.Snapshot() == SetDocumentStep(old(state.Snapshot()), d)
      ensures delivered == old(delivered) + Deliveries(observers, state.Snapshot(), failing)
    {
      state.SetDocument(d);
      Notify();
    }

    method AddKeyword(k: Keyword)
      requires Valid()
      modifies this, state
      ensures Valid() && observers == old(observers)
      ensures state.Snapshot() == AddKeywordStep(old(state.Snapshot()), k)
      ensures delivered == old(delivered) + Deliveries(observers, state.Snapshot(), failing)
    {
      if !HasKeyword(state.activeKeywords, k.normalized) {
        AppendKeepsUnique(state.activeKeywords, k);
      }
      state.AddKeyword(k);
      Notify();
    }

    method RemoveKeyword(text: string)
      requires Valid()
      modifies this, state
      ensures Valid() && observers == old(observers)
      ensures state.Snapshot() == RemoveKeywordStep(old(state.Snapshot()), text)
      ensures delivered == old(delivered) + Deliveries(observers, state.Snapshot(), failing)
    {
      WithoutKeepsUnique(state.activeKeywords, LowerStr(text));
      state.RemoveKeyword(text);
      Notify();
    }

    method ClearKeywords()
      requires Valid()
      modifies this, state
      ensures Valid() && observers == old(observers)
      ensures state.Snapshot() == ClearKeywordsStep(old(state.Snapshot()))
      ensures delivered == old(delivered) + Deliveries(observers, state.Snapshot(), failing)
    {
      state.ClearKeywords();
      Notify();
    }

    /** `start_processing`: refused without any change or notification when the gate is
        closed; otherwise the transition, a notification and true. */
    method StartProcessing() returns (started: bool)
      requires Valid()
      modifies this, state
      ensures Valid() && observers == old(observers)
      ensures started == CanStartExtraction(old(state.Snapshot()))
      ensures !started ==> state.Snapshot() == old(state.Snapshot()) && delivered == old(delivered)
      ensures started ==> state.Snapshot() == StartProcessingStep(old(state.Snapshot()))
      ensures started ==> delivered == old(delivered) + Deliveries(observers, state.Snapshot(), failing)
    {
      var can := state.CanStart();
      if !can {
        return false;
      }
      state.StartProcessing();
      Notify();
      return true;
    }

    method CompleteProcessing(r: ExtractionResults)
      requires Valid()
      modifies this, state
      ensures Valid() && observers == old(observers)
      ensures state.Snapshot() == CompleteProcessingStep(old(state.Snapshot()), r)
      ensures delivered == old(delivered) + Deliveries(observers, state.Snapshot(), failing)
    {
      state.CompleteProcessing(r);
      Notify();
    }

    method FailProcessing(message: string)
      requires Valid()
      modifies this, state
      ensures Valid() && observers == old(observers)
      ensures state.Snapshot() == FailProcessingStep(old(state.Snapshot()), message)
      ensures delivered == old(delivered) + Deliveries(observers, state.Snapshot(), failing)
    {
      state.FailProcessing(message);
      Notify();
    }

    method Reset()
      requires Valid()
      modifies this, state
      ensures Valid() && observers == old(observers)
      ensures state.Snapshot() == Initial()
      ensures delivered == old(delivered) + Deliveries(observers, state.Snapshot(), failing)
    {
      state.Reset();
      Notify();
    }

    /** `can_start_extraction`, a read. */
    method CanStart() returns (b: bool)
      ensures b == CanStartExtraction(state.Snapshot())
    {
      b := state.CanStart();
    }

    /** `is_processing`, a read. */
    method IsProcessing() returns (b: bool)
      ensures b == state.Snapshot().isProcessing
    {
      b := state.isProcessing;
    }

    /** `get_processing_status`, a read. */
    method GetProcessingStatus() returns (s: ProcessingStatus)
      ensures s == state.Snapshot().processingStatus
    {
      s := state.processingStatus;
    }

    /** `add_error`: one message at the end of the state's error list. */
    method AddError(message: string)
      requires Valid()
      modifies this, state
      ensures Valid() && observers == old(observers)
      ensures state.Snapshot() == old(state.Snapshot()).(errorMessages := old(state.Snapshot()).errorMessages + [message])
      ensures delivered == old(delivered) + Deliveries(observers, state.Snapshot(), failing)
    {
      state.errorMessages := state.errorMessages + [message];
      Notify();
    }

    /** `clear_errors`: the error list becomes empty. */
    method ClearErrors()
      requires Valid()
      modifies this, state
      ensures Valid() && observers == old(observers)
      ensures state.Snapshot() == old(state.Snapshot()).(errorMessages := [])
      ensures delivered == old(delivered) + Deliveries(observers, state.Snapshot(), failing)
    {
      state.errorMessages := [];
      Notify();
    }

    /** `add_observer`: registers a callback that is not yet registered. */
    method AddObserver(o: ObserverId)
      requires Valid()
      modifies this
      ensures Valid() && o in observers && delivered == old(delivered)
      ensures observers == if o in old(observers) then old(observers) else old(observers) + [o]
    {
      AddObserverKeepsUnique(observers, o);
      if o !in observers {
        observers := observers + [o];
      }
    }

    /** `remove_observer`: unregisters a callback if it is registered. */
    method RemoveObserver(o: ObserverId)
      requires Valid()
      modifies this
      ensures Valid() && o !in observers && delivered == old(delivered)
      ensures forall p :: p in observers <==> p in old(observers) && p != o
      ensures observers == RemoveFirst(old(observers), o)
    {
      RemoveFirstMeaning(observers, o);
      if o in observers {
        observers := RemoveFirst(observers, o);
      }
    }
  }
}
