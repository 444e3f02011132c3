/** What the event resolvers share with the Event base class they extend: how the
    expansion fields are settled at construction, the lifecycle an entity goes
    through while it loads, and the observable effects of a resolution. */
module Entity {
  import opened JsValues

  datatype Error =
    | MissingId                  // EventById constructed with a falsy id
    | MissingTournamentName      // EventByNames constructed with a falsy tournament name
    | MissingEventName           // EventByNames constructed with a falsy event name
    | FetchFailed(message: string)  // whatever `load()` rejects with

  /** The `expands` argument or field: absent, or an object of expansion flags
      (an object is truthy even when it holds no flag) */
  datatype Expands = NoExpands | ExpandFlags(flags: map<string, bool>)

  /** What `formatExpands` returns */
  datatype Formatted = Formatted(expands: Expands, expandsString: string)

  /** The pair of fields `expands` and `expandsString` of an entity */
  datatype Expansion = Expansion(expands: Expands, expandsString: JsValue)

  /** Both fields are still unset: `!this.expands && !this.expandsString` */
  predicate Unset(x: Expansion) {
    x.expands.NoExpands? && Falsy(x.expandsString)
  }

  /** The expansion fields after construction: `formatExpands(requested)` when
      the base constructor left both unset, what it left otherwise */
  function Resolve(base: Expansion, requested: Expands, formatExpands: Expands -> Formatted): Expansion {
    if Unset(base) then
      Expansion(formatExpands(requested).expands, Str(formatExpands(requested).expandsString))
    else
      base
  }

  /** A JavaScript default parameter `isCached = true`: only `undefined` is replaced */
  function DefaultTrue(isCached: JsValue): JsValue {
    if isCached == Undefined then Bool(true) else isCached
  }

  /** The lifecycle of an entity. `AwaitingTournament` is the first stage of a
      name-based event lookup, before the tournament's slug is known. */
  datatype Phase = Unloaded | AwaitingTournament | Loading | Ready | Failed(cause: Error)

  /** How `load()` settles: with the fetched payload, or rejected with a cause */
  datatype LoadOutcome = Loaded(raw: string) | LoadFailed(cause: Error)

  /** What can happen to an entity while it is in the state machine */
  datatype Input =
    | TournamentReady(slug: string)   // the parent tournament emitted `ready`
    | TournamentFailed(cause: Error)  // the parent tournament emitted `error`
    | LoadSettled(outcome: LoadOutcome)

  /** One transition. Only a ready tournament moves an awaiting entity on, and
      only a settled load moves a loading entity on; everything else, a
      tournament failure included, leaves the phase as it is. */
  function Step(p: Phase, input: Input): Phase {
    match input
    case TournamentReady(_) => if p == AwaitingTournament then Loading else p
    case TournamentFailed(_) => p
    case LoadSettled(o) =>
      if p != Loading then p
      else if o.Loaded? then Ready
      else Failed(o.cause)
  }

  function Run(p: Phase, inputs: seq<Input>): Phase
    decreases |inputs|
  {
    if inputs == [] then p else Run(Step(p, inputs[0]), inputs[1..])
  }

  predicate Terminal(p: Phase) {
    p.Ready? || p.Failed?
  }

  /** Ready and Failed are final: nothing that happens afterwards changes them */
  lemma {:induction false} TerminalIsFinal(p: Phase, inputs: seq<Input>)
    requires Terminal(p)
    ensures Run(p, inputs) == p
    decreases |inputs|
  {
    if inputs != [] {
      TerminalIsFinal(Step(p, inputs[0]), inputs[1..]);
    }
  }

  /** Without a ready tournament an awaiting entity stays awaiting: no load is
      issued and no tournament failure ever reaches it */
  lemma {:induction false} StaysAwaitingWithoutTournament(inputs: seq<Input>)
    requires forall i :: 0 <= i < |inputs| ==> !inputs[i].TournamentReady?
    ensures Run(AwaitingTournament, inputs) == AwaitingTournament
    decreases |inputs|
  {
    if inputs != [] {
      StaysAwaitingWithoutTournament(inputs[1..]);
    }
  }

  /** The inputs with every tournament failure taken out */
  function WithoutTournamentFailures(inputs: seq<Input>): (r: seq<Input>)
    ensures forall i :: 0 <= i < |r| ==> !r[i].TournamentFailed?
    ensures |r| <= |inputs|
  {
    if inputs == [] then []
    else if inputs[0].TournamentFailed? then WithoutTournamentFailures(inputs[1..])
    else [inputs[0]] + WithoutTournamentFailures(inputs[1..])
  }

  /** Tournament failures have no effect at all on any run */
  lemma {:induction false} TournamentFailuresAreIgnored(p: Phase, inputs: seq<Input>)
    ensures Run(p, inputs) == Run(p, WithoutTournamentFailures(inputs))
    decreases |inputs|
  {
    if inputs != [] {
      TournamentFailuresAreIgnored(Step(p, inputs[0]), inputs[1..]);
      if inputs[0].TournamentFailed? {
        TournamentFailuresAreIgnored(p, inputs[1..]);
      } else {
        var r := [inputs[0]] + WithoutTournamentFailures(inputs[1..]);
        assert r[0] == inputs[0] && r[1..] == WithoutTournamentFailures(inputs[1..]);
      }
    }
  }

  /** An awaiting entity becomes Ready only after its tournament became ready
      and, later, its own load succeeded */
  lemma {:induction false} ReadyNeedsTournamentThenLoad(inputs: seq<Input>)
    requires Run(AwaitingTournament, inputs) == Ready
    ensures exists i, j :: 0 <= i < j < |inputs| && inputs[i].TournamentReady?
                           && inputs[j].LoadSettled? && inputs[j].outcome.Loaded?
    decreases |inputs|
  {
    if inputs[0].TournamentReady? {
      var j := LoadingReadyNeedsLoad(inputs[1..]);
      assert inputs[j + 1] == inputs[1..][j];
    } else {
      ReadyNeedsTournamentThenLoad(inputs[1..]);
      var i, j :| 0 <= i < j < |inputs[1..]| && inputs[1..][i].TournamentReady?
                  && inputs[1..][j].LoadSettled? && inputs[1..][j].outcome.Loaded?;
      assert inputs[i + 1] == inputs[1..][i] && inputs[j + 1] == inputs[1..][j];
    }
  }

  /** A loading entity becomes Ready only through a successful load */
  lemma {:induction false} LoadingReadyNeedsLoad(inputs: seq<Input>) returns (j: nat)
    requires Run(Loading, inputs) == Ready
    ensures j < |inputs| && inputs[j].LoadSettled? && inputs[j].outcome.Loaded?
    decreases |inputs|
  {
    if inputs[0].LoadSettled? && inputs[0].outcome.Loaded? {
      j := 0;
    } else {
      if inputs[0].LoadSettled? {
        TerminalIsFinal(Step(Loading, inputs[0]), inputs[1..]);
      }
      var k := LoadingReadyNeedsLoad(inputs[1..]);
      j := k + 1;
    }
  }

  /** An awaiting entity fails only with the cause of its own failed load, never
      because its tournament failed */
  lemma {:induction false} FailureComesFromLoad(p: Phase, inputs: seq<Input>, c: Error)
    requires p == AwaitingTournament || p == Loading
    requires Run(p, inputs) == Failed(c)
    ensures exists j :: 0 <= j < |inputs| && inputs[j] == LoadSettled(LoadFailed(c))
    decreases |inputs|
  {
    var q := Step(p, inputs[0]);
    if q == Failed(c) {
      assert inputs[0] == LoadSettled(LoadFailed(c));
    } else {
      if Terminal(q) {
        TerminalIsFinal(q, inputs[1..]);
      }
      FailureComesFromLoad(q, inputs[1..], c);
      var j :| 0 <= j < |inputs[1..]| && inputs[1..][j] == LoadSettled(LoadFailed(c));
      assert inputs[j + 1] == inputs[1..][j];
    }
  }

  /** A signal an entity emits to its listeners */
  datatype Signal = ReadySignal | ErrorSignal(cause: Error)

  /** The observable effects of a resolution, in the order they happen */
  datatype Effect =
    | TournamentRequested(name: JsValue, expands: Expands, isCached: JsValue)
                                          // `new Tournament(name, {}, false)`
    | LoadIssued(url: string)             // `E.load()` with `E.url` set
    | CacheWritten(key: string)           // `Cache.set(key, E)`
    | Emitted(signal: Signal)             // `emitEventReady` / `emitEventError`
}
