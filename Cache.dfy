/** The process-wide memo table the resolvers write finished entities into. */
module Cache {

  class Cache {
    /** Every stored entity, under its cache key */
    var entries: map<string, object>

    constructor ()
      ensures entries == map[]
    {
      entries := map[];
    }

    /** `Cache.set(key, value)`: store `value` under `key`, replacing any entry
        already there and leaving every other key as it was */
    method Set(key: string, value: object)
      modifies this
      ensures entries == old(entries)[key := value]
    {
      entries := entries[key := value];
    }
  }
}
