/** The clients list and its search box. */
module ClientsPage {
  import opened Types
  import opened Seqs
  import opened Text

  /** The search test for one client: the lowered term occurs in the
      lowered name, email or phone. */
  function ClientMatches(term: string, c: Client): bool {
    var t := Lower(term);
    Includes(Lower(c.name), t) || Includes(Lower(c.email), t) || Includes(Lower(c.phone), t)
  }

  /** `filteredClients`. */
  function FilterClients(clients: seq<Client>, term: string): seq<Client> {
    Filter(clients, c => ClientMatches(term, c))
  }

  /** The shown clients keep their stored order, and a client is shown
      exactly when the term occurs in its name, email or phone. */
  lemma FilterClientsCorrect(clients: seq<Client>, term: string)
    ensures Subsequence(FilterClients(clients, term), clients)
    ensures forall i :: 0 <= i < |clients| ==>
              (clients[i] in FilterClients(clients, term) <==>
                 (exists k :: OccursAt(Lower(clients[i].name), Lower(term), k)) ||
                 (exists k :: OccursAt(Lower(clients[i].email), Lower(term), k)) ||
                 (exists k :: OccursAt(Lower(clients[i].phone), Lower(term), k)))
  {
    FilterMembers(clients, c => ClientMatches(term, c));
  }

  /** An empty search shows every client. */
  lemma EmptySearchShowsAllClients(clients: seq<Client>)
    ensures FilterClients(clients, "") == clients
  {
    forall i | 0 <= i < |clients| ensures ClientMatches("", clients[i]) {
      IncludesEmpty(Lower(clients[i].name));
    }
  }

  /** Searching the search results again with the same term changes nothing. */
  lemma FilterClientsIdempotent(clients: seq<Client>, term: string)
    ensures FilterClients(FilterClients(clients, term), term) == FilterClients(clients, term)
  {
    FilterIdempotent(clients, c => ClientMatches(term, c));
  }

  /** Searching a list made of two parts searches each part. */
  lemma FilterClientsConcat(xs: seq<Client>, ys: seq<Client>, term: string)
    ensures FilterClients(xs + ys, term) == FilterClients(xs, term) + FilterClients(ys, term)
  {
    FilterConcat(xs, ys, c => ClientMatches(term, c));
  }
}
