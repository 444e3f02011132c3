/** `EventByNames`: an event looked up by tournament name and event name. The
    constructor validates both names and settles the expansion fields; the
    static `Get` first resolves the tournament, and only its `ready` handler
    builds the URL from the tournament's slug and loads the event, which is then
    cached under a key made of the names and signalled. */
module EventByNames {
  import opened Wrappers
  import opened JsValues
  import opened Entity
  import Cache
  import StringUtils

  const UrlHost: string := "https://api.smash.gg/"

  /** `format('https://api.smash.gg/%s/event/%s?%s', slug, eventName, expandsString)` */
  function EventUrl(slug: string, eventName: JsValue, expandsString: JsValue): string {
    UrlHost + slug + "/event/" + FormatS(eventName) + "?" + FormatS(expandsString)
  }

  /** `format('event::%s::%s::%s', tournamentName, eventName, expandsString)` */
  function CacheKey(tournamentName: JsValue, eventName: JsValue, expandsString: JsValue): string {
    "event::" + FormatS(tournamentName) + "::" + FormatS(eventName) + "::" + FormatS(expandsString)
  }

  /** The name-based URL for a tournament slug agrees with `formatHTTPS` applied
      to the bare address of the same event, up to the query string: for the
      slug `tournament/function-1-recursion-regional` and the event
      `melee-singles`, both name
      `https://api.smash.gg/tournament/function-1-recursion-regional/event/melee-singles` */
  lemma UrlAgreesWithBareAddress(slug: string, eventName: string, expandsString: JsValue)
    ensures EventUrl(slug, Str(eventName), expandsString)
         == StringUtils.FormatHttps("api.smash.gg/" + slug + "/event/" + eventName)
            + "?" + FormatS(expandsString)
  {
    var bare := "api.smash.gg/" + slug + "/event/" + eventName;
    assert bare[0] == 'a';
    StringUtils.LaterSchemeIsPrefixed(bare);
    var host := "api.smash.gg/";
    assert UrlHost == "https://" + host;
    assert UrlHost + slug == "https://" + (host + slug);
    assert UrlHost + slug + "/event/" == "https://" + (host + slug + "/event/");
    assert UrlHost + slug + "/event/" + eventName == "https://" + bare;
  }

  /** The slug of the tournament `function1`, and the bare address
      `api.smash.gg/tournament/function-1-recursion-regional/event/melee-singles`
      of its `melee-singles` event, as the test suite uses them */
  const FunctionOneSlug: string := "tournament/function-1-recursion-regional"
  const FunctionOneMeleeAddress: string := "api.smash.gg/" + FunctionOneSlug + "/event/" + "melee-singles"

  /** The URL built from the tournament's slug equals the normalised bare
      address that the same event is fetched from directly */
  // The address is a parameter fixed by the requires rather than the constant
  // itself, so that the solver does not unfold the long literal
  lemma FunctionOneMeleeSinglesUrl(address: string, expandsString: JsValue)
    requires address == FunctionOneMeleeAddress
    ensures EventUrl(FunctionOneSlug, Str("melee-singles"), expandsString)
         == StringUtils.FormatHttps(address) + "?" + FormatS(expandsString)
  {
    var slug := FunctionOneSlug;
    assert slug[0] == 't';
    UrlAgreesWithBareAddress(slug, "melee-singles", expandsString);
  }

  class EventByNames {
    var tournamentName: JsValue
    var eventName: JsValue
    var isCached: JsValue
    var expands: Expands
    var expandsString: JsValue
    var tournamentSlug: Option<string>
    var url: Option<string>
    var phase: Phase
    var raw: Option<string>

    /** `new EventByNames(tournamentName, eventName, expands, isCached)`, given the
        expansion fields the Event base constructor left behind. A falsy name
        throws instead; that path is the Failure of `Get`. */
    constructor (tournamentName: JsValue, eventName: JsValue, requested: Expands, isCached: JsValue,
                 base: Expansion, formatExpands: Expands -> Formatted)
      requires Truthy(tournamentName) && Truthy(eventName)
      ensures this.tournamentName == tournamentName && this.eventName == eventName
      ensures this.isCached == DefaultTrue(isCached)
      ensures Expansion(expands, expandsString) == Resolve(base, requested, formatExpands)
      ensures tournamentSlug == None && url == None
      ensures phase == Unloaded && raw == None
      ensures Valid()
    {
      var settled := base;
      if Unset(base) {
        var formatted := formatExpands(requested);
        settled := Expansion(formatted.expands, Str(formatted.expandsString));
      }
      this.tournamentName := tournamentName;
      this.eventName := eventName;
      this.isCached := DefaultTrue(isCached);
      expands := settled.expands;
      expandsString := settled.expandsString;
      tournamentSlug := None;
      url := None;
      phase := Unloaded;
      raw := None;
    }

    /** The slug and the URL exist exactly from the tournament's `ready`
        onwards, and the URL is the one built from the slug */
    predicate Valid()
      reads this
    {
      && ((phase == Unloaded || phase == AwaitingTournament) ==> tournamentSlug == None && url == None)
      && ((phase.Loading? || phase.Ready? || phase.Failed?) ==>
            tournamentSlug.Some? && url == Some(EventUrl(tournamentSlug.value, eventName, expandsString)))
    }

    /** `EventByNames.get(tournamentName, eventName, expands, isCached)` up to the
        point where it waits for the tournament. Failure is the synchronous
        rejection of a failed construction, with the tournament name checked
        first; Success(E) is an event awaiting its tournament, whose promise
        resolves with E when E is Ready and rejects with the cause when E has
        Failed. */
    static method Get(tournamentName: JsValue, eventName: JsValue, requested: Expands, isCached: JsValue,
                      base: Expansion, formatExpands: Expands -> Formatted)
      returns (r: Result<EventByNames, Error>, trace: seq<Effect>)
      ensures Falsy(tournamentName) ==> r == Failure(MissingTournamentName) && trace == []
      ensures Truthy(tournamentName) && Falsy(eventName) ==> r == Failure(MissingEventName) && trace == []
      ensures Truthy(tournamentName) && Truthy(eventName) ==> r.Success? && fresh(r.value)
      ensures r.Success? ==>
        var e := r.value;
        && e.tournamentName == tournamentName && e.eventName == eventName
        && e.isCached == DefaultTrue(isCached)
        && Expansion(e.expands, e.expandsString) == Resolve(base, requested, formatExpands)
        && e.tournamentSlug == None && e.url == None && e.raw == None
        && e.phase == AwaitingTournament
        && e.Valid()
        && trace == [TournamentRequested(tournamentName, ExpandFlags(map[]), Bool(false))]
    {
      if Falsy(tournamentName) {
        return Failure(MissingTournamentName), [];
      }
      if Falsy(eventName) {
        return Failure(MissingEventName), [];
      }
      var e := new EventByNames(tournamentName, eventName, requested, isCached, base, formatExpands);
      trace := [TournamentRequested(e.tournamentName, ExpandFlags(map[]), Bool(false))];
      e.phase := AwaitingTournament;
      r := Success(e);
    }

    /** The tournament's `ready` handler: record the slug, build the URL from it
        and issue the load. This is the only place the URL is set. */
    method OnTournamentReady(slug: string) returns (trace: seq<Effect>)
      requires phase == AwaitingTournament
      modifies this
      ensures phase == Step(old(phase), TournamentReady(slug)) && phase == Loading
      ensures tournamentSlug == Some(slug)
      ensures url == Some(EventUrl(slug, eventName, expandsString))
      ensures trace == [LoadIssued(url.value)]
      ensures Valid()
      ensures tournamentName == old(tournamentName) && eventName == old(eventName)
      ensures isCached == old(isCached) && raw == old(raw)
      ensures expands == old(expands) && expandsString == old(expandsString)
    {
      tournamentSlug := Some(slug);
      url := Some(EventUrl(slug, eventName, expandsString));
      phase := Loading;
      trace := [LoadIssued(url.value)];
    }

    /** The settling of the load issued by the tournament handler: on success
        cache the event under its name-based key and then signal ready; on
        failure signal the error and write nothing. */
    method OnLoadSettled(outcome: LoadOutcome, cache: Cache.Cache) returns (trace: seq<Effect>)
      requires phase == Loading
      modifies this, cache
      ensures phase == Step(old(phase), LoadSettled(outcome))
      ensures outcome.Loaded? ==>
        var key := CacheKey(tournamentName, eventName, expandsString);
        && raw == Some(outcome.raw)
        && cache.entries == old(cache.entries)[key := this]
        && trace == [CacheWritten(key), Emitted(ReadySignal)]
      ensures outcome.LoadFailed? ==>
        && raw == old(raw)
        && cache.entries == old(cache.entries)
        && trace == [Emitted(ErrorSignal(outcome.cause))]
      ensures tournamentName == old(tournamentName) && eventName == old(eventName)
      ensures isCached == old(isCached) && tournamentSlug == old(tournamentSlug) && url == old(url)
      ensures expands == old(expands) && expandsString == old(expandsString)
      ensures old(Valid()) ==> Valid()
    {
      match outcome {
        case Loaded(payload) =>
          raw := Some(payload);
          var key := CacheKey(tournamentName, eventName, expandsString);
          cache.Set(key, this);
          trace := [CacheWritten(key)];
          phase := Ready;
          trace := trace + [Emitted(ReadySignal)];
        case LoadFailed(cause) =>
          phase := Failed(cause);
          trace := [Emitted(ErrorSignal(cause))];
      }
    }

    /** The whole of `EventByNames.get` when the tournament becomes ready with
        `slug` and the load then settles with `outcome`: the request, the
        handler and the settling in their order, as one trace */
    static method GetAndLoad(tournamentName: JsValue, eventName: JsValue, requested: Expands,
                             isCached: JsValue, base: Expansion, formatExpands: Expands -> Formatted,
                             slug: string, outcome: LoadOutcome, cache: Cache.Cache)
      returns (r: Result<EventByNames, Error>, trace: seq<Effect>)
      modifies cache
      ensures Falsy(tournamentName) ==> r == Failure(MissingTournamentName) && trace == []
      ensures Truthy(tournamentName) && Falsy(eventName) ==> r == Failure(MissingEventName) && trace == []
      ensures r.Failure? ==> cache.entries == old(cache.entries)
      ensures Truthy(tournamentName) && Truthy(eventName) ==> r.Success?
      ensures r.Success? ==>
        var e := r.value;
        var es := Resolve(base, requested, formatExpands).expandsString;
        var url := EventUrl(slug, eventName, es);
        && fresh(e) && e.Valid()
        && e.tournamentName == tournamentName && e.eventName == eventName
        && e.isCached == DefaultTrue(isCached)
        && Expansion(e.expands, e.expandsString) == Resolve(base, requested, formatExpands)
        && e.phase == Run(AwaitingTournament, [TournamentReady(slug), LoadSettled(outcome)])
        && e.tournamentSlug == Some(slug) && e.url == Some(url)
        && (outcome.Loaded? ==>
              var key := CacheKey(tournamentName, eventName, es);
              && e.raw == Some(outcome.raw)
              && cache.entries == old(cache.entries)[key := e]
              && trace == [TournamentRequested(tournamentName, ExpandFlags(map[]), Bool(false)),
                           LoadIssued(url), CacheWritten(key), Emitted(ReadySignal)])
        && (outcome.LoadFailed? ==>
              && e.raw == None
              && cache.entries == old(cache.entries)
              && trace == [TournamentRequested(tournamentName, ExpandFlags(map[]), Bool(false)),
                           LoadIssued(url), Emitted(ErrorSignal(outcome.cause))])
    {
      r, trace := Get(tournamentName, eventName, requested, isCached, base, formatExpands);
      if r.Success? {
        var e := r.value;
        var handled := e.OnTournamentReady(slug);
        var settled := e.OnLoadSettled(outcome, cache);
        trace := trace + handled + settled;
        var inputs := [TournamentReady(slug), LoadSettled(outcome)];
        assert inputs[1..] == [LoadSettled(outcome)] && inputs[1..][1..] == [];
        assert Run(Loading, inputs[1..]) == Run(Step(Loading, LoadSettled(outcome)), []);
        assert Run(AwaitingTournament, inputs) == Run(Loading, inputs[1..]);
      }
    }
  }
}
