/** The reactors of the multiply-accumulate program. Each of their reactions is one step of `Mac`. */
module MacReactors {
  import opened Basics
  import opened Collections
  import opened Mac

  /** The static counter of a request type. */
  class UidCounter {
    var next: nat

    constructor ()
      ensures next == 1
    {
      next := 1;
    }

    method FetchAdd() returns (uid: nat)
      modifies this
      ensures uid == old(next) && next == (old(next) + 1) % UINT64
    {
      uid := next;
      next := (next + 1) % UINT64;
    }
  }

  /** `Request(data)`: a new request takes the next uid of its type. */
  method NewRequest<T>(uids: UidCounter, data: T) returns (r: Request<T>)
    modifies uids
    ensures r == Request(old(uids.next), data) && uids.next == (old(uids.next) + 1) % UINT64
  {
    var uid := uids.FetchAdd();
    r := Request(uid, data);
  }

  class ContextManager<D, C> {
    var contextBuffer: map<nat, C>

    constructor ()
      ensures contextBuffer == map[]
    {
      contextBuffer := map[];
    }

    method RequestIn(request: Request<D>, ctx: C) returns (out: Request<D>)
      modifies this
      ensures contextBuffer == old(contextBuffer)[request.uid := ctx] && out == request
    {
      contextBuffer := contextBuffer[request.uid := ctx];
      out := request;
    }

    /** `context_buffer[uid]` enters a default context when there is none; contexts are never taken out. */
    method ResponseIn(response: Response, default: C) returns (out: With<Response, C>)
      modifies this
      ensures out == With(response, Lookup(old(contextBuffer), response.uid, default))
      ensures contextBuffer == old(contextBuffer)[response.uid := out.ctx]
    {
      if response.uid !in contextBuffer {
        contextBuffer := contextBuffer[response.uid := default];
      }
      out := With(response, contextBuffer[response.uid]);
    }
  }

  /** A service: `requestQueue` holds the events it has scheduled, from which any may come next. */
  class DelayedService {
    const kind: Service
    var requestQueue: seq<PairReq>

    constructor (kind: Service)
      ensures this.kind == kind && requestQueue == []
    {
      this.kind, requestQueue := kind, [];
    }

    method OnRequest(request: PairReq)
      modifies this
      ensures requestQueue == old(requestQueue) + [request]
    {
      requestQueue := requestQueue + [request];
    }

    method OnQueued(i: nat) returns (response: Response)
      requires i < |requestQueue|
      modifies this
      ensures requestQueue == Without(old(requestQueue), i)
      ensures response == MakeResponse(old(requestQueue)[i], Result(kind, old(requestQueue)[i].data))
    {
      var req := requestQueue[i];
      requestQueue := Without(requestQueue, i);
      response := MakeResponse(req, Result(kind, req.data));
    }
  }

  /** A service, the context manager in front of it, and the ports between them. */
  class Pipe {
    const manager: ContextManager<(int, int), MacReq>
    const service: DelayedService
    var requestIn: Option<With<PairReq, MacReq>>
    var request: Option<PairReq>
    var response: Option<Response>
    var responseOut: Option<With<Response, MacReq>>

    ghost function View(): Stage
      reads this, manager, service
    {
      Stage(manager.contextBuffer, requestIn, request, service.requestQueue, response, responseOut)
    }

    constructor (kind: Service)
      ensures View() == EMPTY && service.kind == kind
      ensures fresh(manager) && fresh(service)
    {
      manager := new ContextManager();
      service := new DelayedService(kind);
      requestIn, request, response, responseOut := None, None, None, None;
    }

    method Store()
      requires StageEnabled(View(), StageLabel.Store)
      modifies this, manager
      ensures View() == StageStep(service.kind, old(View()), StageLabel.Store)
    {
      var out := manager.RequestIn(requestIn.value.msg, requestIn.value.ctx);
      requestIn, request := None, Some(out);
    }

    method Queue()
      requires StageEnabled(View(), StageLabel.Queue)
      modifies this, service
      ensures View() == StageStep(service.kind, old(View()), StageLabel.Queue)
    {
      service.OnRequest(request.value);
      request := None;
    }

    method Serve(i: nat)
      requires StageEnabled(View(), StageLabel.Serve(i))
      modifies this, service
      ensures View() == StageStep(service.kind, old(View()), StageLabel.Serve(i))
    {
      var r := service.OnQueued(i);
      response := Some(r);
    }

    method Recall()
      requires StageEnabled(View(), StageLabel.Recall)
      modifies this, manager
      ensures View() == StageStep(service.kind, old(View()), StageLabel.Recall)
    {
      var out := manager.ResponseIn(response.value, DEFAULT);
      response, responseOut := None, Some(out);
    }

    /** The runtime drops an event. */
    method Lose(i: nat)
      requires StageEnabled(View(), StageLabel.Lose(i))
      modifies service
      ensures View() == StageStep(service.kind, old(View()), StageLabel.Lose(i))
    {
      service.requestQueue := Without(service.requestQueue, i);
    }

    method React(l: StageLabel)
      requires StageEnabled(View(), l)
      modifies this, manager, service
      ensures View() == StageStep(service.kind, old(View()), l)
    {
      match l
      case Store => Store();
      case Queue => Queue();
      case Serve(i) => Serve(i);
      case Lose(i) => Lose(i);
      case Recall => Recall();
    }
  }

  class Program {
    const macUids: UidCounter
    const pairUids: UidCounter
    const manager: ContextManager<MacData, MacData>      // the client's
    const mul: Pipe
    const add: Pipe
    var counter: int
    var requestIn: Option<With<MacReq, MacData>>
    var request: Option<MacReq>
    var response: Option<Response>
    var responseOut: Option<With<Response, MacData>>
    var results: seq<With<Response, MacData>>
    ghost var issued: seq<MacData>
    ghost var lost: seq<nat>

    ghost predicate Valid()
      reads this
    {
      && macUids != pairUids && mul != add
      && mul.manager != add.manager && mul.service != add.service
      && mul.service.kind == Multiply && add.service.kind == Add
    }

    ghost function View(): State
      reads this, macUids, pairUids, manager, mul, mul.manager, mul.service, add, add.manager, add.service
    {
      State(counter, macUids.next, pairUids.next, manager.contextBuffer, requestIn, request, mul.View(), add.View(),
            response, responseOut, issued, results, lost)
    }

    constructor ()
      ensures Valid() && View() == INIT
    {
      macUids := new UidCounter();
      pairUids := new UidCounter();
      manager := new ContextManager();
      mul := new Pipe(Multiply);
      add := new Pipe(Add);
      counter, requestIn, request, response, responseOut := 0, None, None, None, None;
      results, issued, lost := [], [], [];
    }

    // ---- client ----

    method Timer()
      requires Valid() && Enabled(View(), Label.Timer)
      modifies this, macUids
      ensures Valid() && View() == TimerStep(old(View()))
      ensures var n := old(counter);
              && issued == old(issued) + [MacData(n, n + 1, n + 2)]
              && requestIn == Some(With(Request(old(macUids.next), MacData(n, n + 1, n + 2)), MacData(n, n + 1, n + 2)))
    {
      var data := MacData(counter, counter + 1, counter + 2);
      var req := NewRequest(macUids, data);
      requestIn := Some(With(req, data));
      counter := counter + 1;
      issued := issued + [data];
    }

    method ClientStore()
      requires Valid() && Enabled(View(), Label.ClientStore)
      modifies this, manager
      ensures Valid() && View() == ClientStoreStep(old(View()))
    {
      var out := manager.RequestIn(requestIn.value.msg, requestIn.value.ctx);
      requestIn, request := None, Some(out);
    }

    method ClientRecall()
      requires Valid() && Enabled(View(), Label.ClientRecall)
      modifies this, manager
      ensures Valid() && View() == ClientRecallStep(old(View()))
    {
      var out := manager.ResponseIn(response.value, DEFAULT.data);
      response, responseOut := None, Some(out);
    }

    method Print()
      requires Valid() && Enabled(View(), Label.Print)
      modifies this
      ensures Valid() && View() == PrintStep(old(View()))
    {
      results := results + [responseOut.value];
      responseOut := None;
    }

    // ---- the multiply-accumulate service ----

    method Split()
      requires Valid() && Enabled(View(), Label.Split)
      modifies this, pairUids, mul
      ensures Valid() && View() == SplitStep(old(View()))
    {
      var original := request.value;
      var multiply := NewRequest(pairUids, (original.data.factor1, original.data.factor2));
      mul.requestIn := Some(With(multiply, original));
      request := None;
    }

    method MulDone()
      requires Valid() && Enabled(View(), Label.MulDone)
      modifies pairUids, mul, add
      ensures Valid() && View() == MulDoneStep(old(View()))
    {
      var With(mulResult, original) := mul.responseOut.value;
      var sum := NewRequest(pairUids, (mulResult.data, original.data.summand));
      add.requestIn := Some(With(sum, original));
      mul.responseOut := None;
    }

    method AddDone()
      requires Valid() && Enabled(View(), Label.AddDone)
      modifies this, add
      ensures Valid() && View() == AddDoneStep(old(View()))
    {
      var With(result, original) := add.responseOut.value;
      response := Some(MakeResponse(original, result.data));
      add.responseOut := None;
    }

    method MulStage(l: StageLabel)
      requires Valid() && Enabled(View(), Label.MulStage(l))
      modifies this, mul, mul.manager, mul.service
      ensures Valid() && View() == Step(old(View()), Label.MulStage(l))
    {
      lost := Losses(mul.View(), l, lost);
      mul.React(l);
    }

    method AddStage(l: StageLabel)
      requires Valid() && Enabled(View(), Label.AddStage(l))
      modifies this, add, add.manager, add.service
      ensures Valid() && View() == Step(old(View()), Label.AddStage(l))
    {
      lost := Losses(add.View(), l, lost);
      add.React(l);
    }

    /** Whatever reaction is enabled runs as a step of the model, so the program stays in reachable states. */
    method React(l: Label)
      requires Valid() && Reachable(View()) && Enabled(View(), l)
      modifies this, macUids, pairUids, manager, mul, mul.manager, mul.service, add, add.manager, add.service
      ensures Valid() && View() == Step(old(View()), l) && Reachable(View())
    {
      Extend(View(), l);
      match l
      case Timer => Timer();
      case ClientStore => ClientStore();
      case Split => Split();
      case MulStage(l) => MulStage(l);
      case MulDone => MulDone();
      case AddStage(l) => AddStage(l);
      case AddDone => AddDone();
      case ClientRecall => ClientRecall();
      case Print => Print();
    }
  }
}
