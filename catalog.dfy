/**
 * The WSDL loader: a cache of parsed WSDL documents keyed by URL, and the
 * binding listing `load_wsdl` returns. Fetching and parsing a document
 * (zeep's `CachingClient`) is not modelled: each call receives the outcome
 * of constructing the client for that URL, a parsed document or the error
 * the construction raised.
 */
module Catalog {

  import opened Wrappers
  import opened Text
  import opened Ordering
  import opened Wsdl

  /** One binding of the listing: its qualified name, its local name and its operation names. */
  datatype BindingEntry = BindingEntry(qualifiedName: string, localName: string, operations: seq<string>)

  /** The local part of a qualified binding name: the last `}`-separated part when there is a `}`, else the whole name. */
  function LocalPart(qname: string): string {
    if '}' in qname then
      var parts := Split(qname, '}');
      parts[|parts| - 1]
    else qname
  }

  /** The split-based local part is the text after the last `}`, so it holds no `}`. */
  lemma LocalPartIsLocalName(qname: string)
    ensures LocalPart(qname) == LocalName(qname)
    ensures '}' !in LocalPart(qname)
  {
    if '}' in qname {
      var parts := Split(qname, '}');
      var l := parts[|parts| - 1];
      SplitLastPart(qname, '}');
      LocalNameUnique(qname, |qname| - |l|);
    }
  }

  /** `e` is the listing entry of binding `b` named `qname`. */
  predicate ListsBinding(e: BindingEntry, qname: string, b: Binding) {
    && e.qualifiedName == qname
    && e.localName == LocalName(qname)
    && StrictlySorted(e.operations)
    && Elements(e.operations) == b.operations.Keys
  }

  /** `listing` has one entry per binding of `w`, under the binding's qualified name. */
  predicate Lists(listing: map<string, BindingEntry>, w: ParsedWsdl) {
    && listing.Keys == w.bindings.Keys
    && forall q :: q in listing ==> ListsBinding(listing[q], q, w.bindings[q])
  }

  /** A document has exactly one listing. */
  lemma ListingUnique(a: map<string, BindingEntry>, b: map<string, BindingEntry>, w: ParsedWsdl)
    requires Lists(a, w) && Lists(b, w)
    ensures a == b
  {
    forall q | q in a ensures a[q] == b[q] {
      SortedUnique(a[q].operations, b[q].operations);
    }
  }

  /** The loop of `load_wsdl` that lists each binding of a parsed document. */
  method ListBindings(w: ParsedWsdl) returns (listing: map<string, BindingEntry>)
    ensures Lists(listing, w)
  {
    listing := map[];
    var remaining := w.bindings.Keys;
    while remaining != {}
      invariant remaining <= w.bindings.Keys
      invariant listing.Keys == w.bindings.Keys - remaining
      invariant forall q :: q in listing ==> ListsBinding(listing[q], q, w.bindings[q])
      decreases remaining
    {
      var qname :| qname in remaining;
      var localName := LocalPart(qname);
      LocalPartIsLocalName(qname);
      var opNames := SortNames(w.bindings[qname].operations.Keys);
      var entry := BindingEntry(qname, localName, opNames);
      assert ListsBinding(entry, qname, w.bindings[qname]);
      listing := listing[qname := entry];
      remaining := remaining - {qname};
    }
  }

  /** `WSDLLoader`: its `_clients` cache. */
  class WsdlLoader {

    var clients: map<string, ParsedWsdl>

    /** Every cached document is a resolved one, as zeep's parser produces. */
    predicate Valid()
      reads this
    {
      forall u :: u in clients ==> WellFormed(clients[u])
    }

    constructor()
      ensures clients == map[] && Valid()
    {
      clients := map[];
    }

    /**
     * `load_wsdl`: builds a client for `url` whether or not one is cached,
     * stores it (the cache is left as it was when construction fails), and
     * lists the document's bindings.
     */
    method LoadWsdl(url: string, client: Result<ParsedWsdl, string>) returns (r: Result<map<string, BindingEntry>, string>)
      requires Valid() && (client.Ok? ==> WellFormed(client.value))
      modifies this
      ensures Valid()
      ensures client.Err? ==> clients == old(clients) && r == Err(client.error)
      ensures client.Ok? ==> clients == old(clients)[url := client.value] && r.Ok? && Lists(r.value, client.value)
    {
      if client.Err? {
        return Err(client.error);
      }
      var c := client.value;
      clients := clients[url := c];
      var bindings := ListBindings(c);
      r := Ok(bindings);
    }

    /** `get_client`: the cached client when there is one, else a new client, stored. */
    method GetClient(url: string, client: Result<ParsedWsdl, string>) returns (r: Result<ParsedWsdl, string>)
      requires Valid() && (client.Ok? ==> WellFormed(client.value))
      modifies this
      ensures Valid() && (r.Ok? ==> WellFormed(r.value))
      ensures url in old(clients) ==> clients == old(clients) && r == Ok(old(clients)[url])
      ensures url !in old(clients) && client.Ok? ==> clients == old(clients)[url := client.value] && r == client
      ensures url !in old(clients) && client.Err? ==> clients == old(clients) && r == client
    {
      if url !in clients {
        if client.Err? {
          return client;
        }
        clients := clients[url := client.value];
      }
      r := Ok(clients[url]);
    }
  }
}
