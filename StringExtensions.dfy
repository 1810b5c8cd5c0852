/**
 * `String.toUrlComponents(_:queryItems:)`: parse the receiver as URL
 * components, replace the path with `"/" + path`, and replace the query
 * with one item per dictionary entry, in the dictionary's iteration order.
 */
module StringExtensions {
  import opened Wrappers

  /** `URLQueryItem`; the source always gives it a value. */
  datatype QueryItem = QueryItem(name: string, value: string)

  /**
   * `URLComponents` as far as this code touches it: `origin` stands for every
   * part other than the path and the query (scheme, authority, fragment),
   * and `queryItems` is `None` when the components carry no query at all.
   */
  datatype UrlComponents = UrlComponents(origin: string, path: string, queryItems: Option<seq<QueryItem>>)

  /**
   * `q` lists every entry of the dictionary `m` exactly once, in some order:
   * Swift leaves a dictionary's iteration order unspecified.
   */
  predicate Enumerates(q: seq<QueryItem>, m: map<string, string>) {
    && |q| == |m|
    && (forall i :: 0 <= i < |q| ==> q[i].name in m && m[q[i].name] == q[i].value)
    && (forall i, j :: 0 <= i < j < |q| ==> q[i].name != q[j].name)
    && (forall k :: k in m ==> exists i :: 0 <= i < |q| && q[i].name == k)
  }

  /**
   * `base.toUrlComponents(path, queryItems: queryItems)`. `parse` stands for
   * Foundation's `URLComponents(string:)`; the source force-unwraps its
   * result, so a base that does not parse is excluded by the precondition.
   * The loop picks the next key in an unspecified order, as iterating a
   * Swift dictionary does.
   */
  method ToUrlComponents(base: string, parse: string -> Option<UrlComponents>, path: string, queryItems: map<string, string>)
    returns (url: UrlComponents)
    requires parse(base).Some?
    ensures url.origin == parse(base).value.origin
    ensures url.path == "/" + path
    ensures url.queryItems.Some? && Enumerates(url.queryItems.value, queryItems)
  {
    var urlComponents := parse(base).value;
    urlComponents := urlComponents.(path := "/" + path);

    var queries: seq<QueryItem> := [];
    var remaining := queryItems.Keys;
    while remaining != {}
      invariant remaining <= queryItems.Keys
      invariant |queries| + |remaining| == |queryItems|
      invariant forall i :: 0 <= i < |queries| ==>
        queries[i].name in queryItems && queries[i].name !in remaining && queryItems[queries[i].name] == queries[i].value
      invariant forall i, j :: 0 <= i < j < |queries| ==> queries[i].name != queries[j].name
      invariant forall k :: k in queryItems && k !in remaining ==> exists i :: 0 <= i < |queries| && queries[i].name == k
      decreases |remaining|
    {
      var key :| key in remaining;
      ghost var listed := queries;
      queries := queries + [QueryItem(key, queryItems[key])];
      remaining := remaining - {key};
      forall k | k in queryItems && k !in remaining
        ensures exists i :: 0 <= i < |queries| && queries[i].name == k
      {
        if k == key {
          assert queries[|listed|].name == k;
        } else {
          var i :| 0 <= i < |listed| && listed[i].name == k;
          assert queries[i].name == k;
        }
      }
    }

    urlComponents := urlComponents.(queryItems := Some(queries));
    url := urlComponents;
  }

  /** The default empty dictionary still sets a query: an empty, present list. */
  lemma EmptyDictionaryGivesEmptyQuery(q: seq<QueryItem>)
    ensures Enumerates(q, map[]) <==> q == []
  {
  }

  /** A one-entry dictionary has exactly one enumeration: the single item. */
  lemma SingleEntryEnumeration(name: string, value: string, q: seq<QueryItem>)
    ensures Enumerates(q, map[name := value]) <==> q == [QueryItem(name, value)]
  {
    if q == [QueryItem(name, value)] {
      assert q[0].name == name;
    }
  }
}
