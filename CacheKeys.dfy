/** How the cache keys of the two event resolvers relate. Both write into the
    same cache under keys of the form `event::...`, separated by `::`. */
module CacheKeys {
  import opened JsValues
  import EventById
  import EventByNames

  /** The number of `:` characters in a string */
  function Colons(s: string): nat
    decreases |s|
  {
    if s == [] then 0 else (if s[0] == ':' then 1 else 0) + Colons(s[1..])
  }

  lemma {:induction false} ColonsAppend(a: string, b: string)
    ensures Colons(a + b) == Colons(a) + Colons(b)
    decreases |a|
  {
    if a == [] {
      assert a + b == b;
    } else {
      assert (a + b)[1..] == a[1..] + b;
      ColonsAppend(a[1..], b);
    }
  }

  lemma {:induction false} NoColonCharacters(s: string)
    requires forall i :: 0 <= i < |s| ==> s[i] != ':'
    ensures Colons(s) == 0
    decreases |s|
  {
    if s != [] {
      NoColonCharacters(s[1..]);
    }
  }

  /** A printed integer holds no `:` */
  lemma IntHasNoColons(n: int)
    ensures Colons(IntToDecimal(n)) == 0
  {
    NoColonCharacters(IntToDecimal(n));
  }

  /** An event cached by a numeric id never shares its cache entry with an event
      cached by names, as long as the expansion string holds no `:`: the first
      key has exactly four colons, the second at least six */
  lemma NumericIdKeyDiffersFromNamesKey(id: int, expandsString: JsValue,
                                        tournamentName: JsValue, eventName: JsValue, namesExpandsString: JsValue)
    requires Colons(FormatS(expandsString)) == 0
    ensures EventById.CacheKey(Num(id), expandsString)
         != EventByNames.CacheKey(tournamentName, eventName, namesExpandsString)
  {
    var sep := "::";
    assert Colons(sep) == 2;
    assert Colons("event::") == 2;
    IntHasNoColons(id);
    ColonsAppend("event::", IntToDecimal(id));
    ColonsAppend("event::" + IntToDecimal(id), sep);
    ColonsAppend("event::" + IntToDecimal(id) + sep, FormatS(expandsString));
    var t, e, x := FormatS(tournamentName), FormatS(eventName), FormatS(namesExpandsString);
    ColonsAppend("event::", t);
    ColonsAppend("event::" + t, sep);
    ColonsAppend("event::" + t + sep, e);
    ColonsAppend("event::" + t + sep + e, sep);
    ColonsAppend("event::" + t + sep + e + sep, x);
  }

  /** A string id that itself holds `::` writes the very entry an event looked
      up by names uses: `EventById` with id `function1::melee-singles` and
      `EventByNames` with `function1` and `melee-singles` share a key */
  lemma StringIdKeyCanEqualNamesKey(tournamentName: JsValue, eventName: JsValue, expandsString: JsValue)
    ensures EventById.CacheKey(Str(FormatS(tournamentName) + "::" + FormatS(eventName)), expandsString)
         == EventByNames.CacheKey(tournamentName, eventName, expandsString)
  {
  }
}
