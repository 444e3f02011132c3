/** `EventById`: an event looked up by its numeric id. The constructor validates
    the id, settles the expansion fields and builds the fetch URL; the static
    `Get` loads the event, stores it in the cache and signals the outcome. */
module EventById {
  import opened Wrappers
  import opened JsValues
  import opened Entity
  import Cache
  import StringUtils

  const UrlPrefix: string := "https://api.smash.gg/event/"

  /** `format('https://api.smash.gg/event/%s?%s', id, expandsString)` */
  function EventUrl(id: JsValue, expandsString: JsValue): string {
    UrlPrefix + FormatS(id) + "?" + FormatS(expandsString)
  }

  /** `format('event::%s::%s', id, expandsString)` */
  function CacheKey(id: JsValue, expandsString: JsValue): string {
    "event::" + FormatS(id) + "::" + FormatS(expandsString)
  }

  /** `p + x + q == p + y + q` only when `x == y` */
  lemma MiddleDetermined(p: string, x: string, y: string, q: string)
    requires p + x + q == p + y + q
    ensures x == y
  {
    var s := p + x + q;
    assert |x| == |y|;
    assert x == s[|p|..|p| + |x|];
    assert y == (p + y + q)[|p|..|p| + |y|];
  }

  /** `p + x + m + e` regrouped with the last two pieces together; keeping the
      pieces abstract spares the solver from unfolding the literals */
  lemma Regroup(p: string, x: string, m: string, e: string)
    ensures p + x + m + e == p + x + (m + e)
  {
  }

  /** The URL already has the form `formatHTTPS` produces */
  lemma UrlIsHttpsNormal(id: JsValue, expandsString: JsValue)
    ensures StringUtils.FormatHttps(EventUrl(id, expandsString)) == EventUrl(id, expandsString)
  {
    var u := EventUrl(id, expandsString);
    assert StringUtils.StartsWith(u, "https://") by {
      assert u == "https://" + (u[8..]);
    }
    StringUtils.HttpsIsNotHttp(u);
  }

  /** For a fixed expansion string, the URL tells numeric ids apart */
  lemma UrlDeterminesNumericId(a: int, b: int, expandsString: JsValue)
    requires EventUrl(Num(a), expandsString) == EventUrl(Num(b), expandsString)
    ensures a == b
  {
    var x, y, e := IntToDecimal(a), IntToDecimal(b), FormatS(expandsString);
    Regroup(UrlPrefix, x, "?", e);
    Regroup(UrlPrefix, y, "?", e);
    MiddleDetermined(UrlPrefix, x, y, "?" + e);
    IntToDecimalInjective(a, b);
  }

  /** For a fixed expansion string, the cache key tells numeric ids apart, so
      two events with different ids never share a cache entry */
  lemma CacheKeyDeterminesNumericId(a: int, b: int, expandsString: JsValue)
    requires CacheKey(Num(a), expandsString) == CacheKey(Num(b), expandsString)
    ensures a == b
  {
    var x, y, e := IntToDecimal(a), IntToDecimal(b), FormatS(expandsString);
    Regroup("event::", x, "::", e);
    Regroup("event::", y, "::", e);
    MiddleDetermined("event::", x, y, "::" + e);
    IntToDecimalInjective(a, b);
  }

  class EventById {
    var id: JsValue
    var isCached: JsValue
    var expands: Expands
    var expandsString: JsValue
    var url: string
    var phase: Phase
    var raw: Option<string>

    /** `new EventById(id, expands, isCached)`, given the expansion fields the
        Event base constructor left behind. A falsy id throws instead; that path
        is the Failure of `Get`. */
    constructor (id: JsValue, requested: Expands, isCached: JsValue, base: Expansion,
                 formatExpands: Expands -> Formatted)
      requires Truthy(id)
      ensures this.id == id && this.isCached == DefaultTrue(isCached)
      ensures Expansion(expands, expandsString) == Resolve(base, requested, formatExpands)
      ensures url == EventUrl(id, expandsString)
      ensures phase == Unloaded && raw == None
    {
      var settled := base;
      if Unset(base) {
        var formatted := formatExpands(requested);
        settled := Expansion(formatted.expands, Str(formatted.expandsString));
      }
      this.id := id;
      this.isCached := DefaultTrue(isCached);
      expands := settled.expands;
      expandsString := settled.expandsString;
      url := EventUrl(id, settled.expandsString);
      phase := Unloaded;
      raw := None;
    }

    /** `EventById.get(id, expands, isCached)` with the outcome of `load()` as an
        input. Failure is the synchronous rejection of a failed construction;
        Success(E) is an event whose promise resolves with E when E is Ready and
        rejects with the cause when E has Failed. */
    static method Get(id: JsValue, requested: Expands, isCached: JsValue, base: Expansion,
                      formatExpands: Expands -> Formatted, outcome: LoadOutcome, cache: Cache.Cache)
      returns (r: Result<EventById, Error>, trace: seq<Effect>)
      modifies cache
      ensures Falsy(id) ==> r == Failure(MissingId) && trace == [] && cache.entries == old(cache.entries)
      ensures Truthy(id) ==> r.Success? && fresh(r.value)
      ensures r.Success? ==>
        var e := r.value;
        && e.id == id && e.isCached == DefaultTrue(isCached)
        && Expansion(e.expands, e.expandsString) == Resolve(base, requested, formatExpands)
        && e.url == EventUrl(id, e.expandsString)
        && e.phase == Step(Loading, LoadSettled(outcome))
      ensures r.Success? && outcome.Loaded? ==>
        var e := r.value;
        var key := CacheKey(id, e.expandsString);
        && e.raw == Some(outcome.raw)
        && cache.entries == old(cache.entries)[key := e]
        && trace == [LoadIssued(e.url), CacheWritten(key), Emitted(ReadySignal)]
      ensures r.Success? && outcome.LoadFailed? ==>
        var e := r.value;
        && e.raw == None
        && cache.entries == old(cache.entries)
        && trace == [LoadIssued(e.url), Emitted(ErrorSignal(outcome.cause))]
    {
      if Falsy(id) {
        return Failure(MissingId), [];
      }
      var e := new EventById(id, requested, isCached, base, formatExpands);
      e.phase := Loading;
      trace := [LoadIssued(e.url)];
      match outcome {
        case Loaded(payload) =>
          e.raw := Some(payload);
          var key := CacheKey(e.id, e.expandsString);
          cache.Set(key, e);
          trace := trace + [CacheWritten(key)];
          e.phase := Ready;
          trace := trace + [Emitted(ReadySignal)];
        case LoadFailed(cause) =>
          e.phase := Failed(cause);
          trace := trace + [Emitted(ErrorSignal(cause))];
      }
      r := Success(e);
    }
  }
}
