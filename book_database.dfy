/**
 * The chain-replicated book store (`BookDatabaseService`).
 *
 * Replicas 1..N each hold a `books` map from book id to book. A write enters at
 * replica 1, travels replica by replica to the tail (Head2Tail), and is applied
 * on the way back from the tail to the head (Tail2Head).
 *
 * A remote call to replica j is modelled as a call of the same method with
 * `node == j`. It succeeds iff j is reachable at that moment. Reachability is
 * given by two sets: `forward` while the write travels towards the tail, and
 * `backward` while the acknowledgement travels back. Keeping them apart lets
 * a replica fail between the two passes.
 */
module BookDatabase {
  import opened Wrappers

  /** A book record. `id` is the key every replica stores it under. */
  datatype Book = Book(id: string, title: string, copiesAvailable: int)

  /** One replica's `books` map. */
  type Store = map<string, Book>

  // ---------------------------------------------------------------------------
  // The constructor's map build

  /** The map built from a book list: keyed by id, a later duplicate replaces an earlier one. */
  function Catalog(list: seq<Book>): Store
  {
    if list == [] then map[]
    else Catalog(list[..|list| - 1])[list[|list| - 1].id := list[|list| - 1]]
  }

  /** Ids stored by the catalog are exactly the ids occurring in the list. */
  lemma {:induction false} CatalogDomain(list: seq<Book>)
    ensures forall id :: id in Catalog(list) <==> exists j :: 0 <= j < |list| && list[j].id == id
  {
    if list != [] {
      var init := list[..|list| - 1];
      CatalogDomain(init);
      forall id | id in Catalog(list)
        ensures exists j :: 0 <= j < |list| && list[j].id == id
      {
        if id != list[|list| - 1].id {
          assert id in Catalog(init);
          var j :| 0 <= j < |init| && init[j].id == id;
          assert list[j] == init[j];
        }
      }
      forall id | exists j :: 0 <= j < |list| && list[j].id == id
        ensures id in Catalog(list)
      {
        var j :| 0 <= j < |list| && list[j].id == id;
        if j < |init| {
          assert init[j] == list[j];
        }
      }
    }
  }

  /** The entry under an id is the last book in the list that carries that id. */
  lemma {:induction false} CatalogLastWins(list: seq<Book>, j: nat)
    requires j < |list|
    requires forall k :: j < k < |list| ==> list[k].id != list[j].id
    ensures list[j].id in Catalog(list) && Catalog(list)[list[j].id] == list[j]
  {
    if j < |list| - 1 {
      var init := list[..|list| - 1];
      assert init[j] == list[j];
      CatalogLastWins(init, j);
    }
  }

  /** The loop of `BookDatabaseService.__init__` that fills one replica's map. */
  method BuildStore(list: seq<Book>) returns (books: Store)
    ensures books == Catalog(list)
    ensures forall id :: id in books <==> exists j :: 0 <= j < |list| && list[j].id == id
  {
    books := map[];
    var i := 0;
    while i < |list|
      invariant 0 <= i <= |list|
      invariant books == Catalog(list[..i])
    {
      assert list[..i + 1][..i] == list[..i];
      books := books[list[i].id := list[i]];
      i := i + 1;
    }
    assert list[..i] == list;
    CatalogDomain(list);
  }

  // ---------------------------------------------------------------------------
  // Specification of the chain write

  /**
   * Tail2Head on replica `node`: store the book, then call replica node - 1
   * while node - 1 > 0. Replica 1 answers success; an unreachable replica
   * ends the walk with no response.
   */
  ghost function Tail2HeadSpec(nodes: seq<Store>, node: nat, book: Book, backward: set<nat>): (r: (seq<Store>, Option<bool>))
    requires 1 <= node <= |nodes|
    ensures |r.0| == |nodes|
    decreases node
  {
    var written := nodes[node - 1 := nodes[node - 1][book.id := book]];
    if 0 < node - 1 then
      if node - 1 in backward then Tail2HeadSpec(written, node - 1, book, backward) else (written, None)
    else
      (written, Some(true))
  }

  /**
   * Head2Tail on replica `node`: below the tail, pass the same book to
   * replica node + 1 and relay its answer; at the tail, call Tail2Head on the
   * tail's own address and relay its answer.
   */
  ghost function Head2TailSpec(nodes: seq<Store>, node: nat, book: Book, forward: set<nat>, backward: set<nat>): (r: (seq<Store>, Option<bool>))
    requires 1 <= node <= |nodes|
    ensures |r.0| == |nodes|
    decreases |nodes| - node
  {
    if node < |nodes| then
      if node + 1 in forward then Head2TailSpec(nodes, node + 1, book, forward, backward) else (nodes, None)
    else if node in forward then
      Tail2HeadSpec(nodes, node, book, backward)
    else
      (nodes, None)
  }

  /** AddBook and UpdateBook: call Head2Tail on replica 1; if it cannot be reached there is no response. */
  ghost function ChainWrite(nodes: seq<Store>, book: Book, forward: set<nat>, backward: set<nat>): (r: (seq<Store>, Option<bool>))
    requires 1 <= |nodes|
    ensures |r.0| == |nodes|
  {
    if 1 in forward then Head2TailSpec(nodes, 1, book, forward, backward) else (nodes, None)
  }

  // ---------------------------------------------------------------------------
  // Closed forms

  /** The lowest replica the acknowledgement walk started at `node` reaches. */
  function WalkLow(node: nat, backward: set<nat>): (low: nat)
    requires 1 <= node
    ensures 1 <= low <= node
    ensures forall j :: low <= j < node ==> j in backward
    ensures low > 1 ==> low - 1 !in backward
    decreases node
  {
    if 0 < node - 1 && node - 1 in backward then WalkLow(node - 1, backward) else node
  }

  /** `nodes` with the book stored on replicas low..high and nothing else changed. */
  function Written(nodes: seq<Store>, low: nat, high: nat, book: Book): seq<Store>
  {
    seq(|nodes|, j requires 0 <= j < |nodes| => if low <= j + 1 <= high then nodes[j][book.id := book] else nodes[j])
  }

  /** Every replica after `node`, and the tail itself, can be reached while the write travels towards the tail. */
  ghost predicate ForwardReachesTail(node: nat, n: nat, forward: set<nat>)
  {
    n in forward && forall j :: node < j <= n ==> j in forward
  }

  /** The acknowledgement walk from `node` writes exactly replicas WalkLow..node and succeeds iff it reaches replica 1. */
  lemma {:induction false} Tail2HeadClosedForm(nodes: seq<Store>, node: nat, book: Book, backward: set<nat>)
    requires 1 <= node <= |nodes|
    ensures Tail2HeadSpec(nodes, node, book, backward)
         == (Written(nodes, WalkLow(node, backward), node, book),
             if WalkLow(node, backward) == 1 then Some(true) else None)
    decreases node
  {
    var written := nodes[node - 1 := nodes[node - 1][book.id := book]];
    var low := WalkLow(node, backward);
    if 0 < node - 1 && node - 1 in backward {
      Tail2HeadClosedForm(written, node - 1, book, backward);
      assert Written(written, low, node - 1, book) == Written(nodes, low, node, book);
    } else {
      assert written == Written(nodes, node, node, book);
    }
  }

  /** Head2Tail from `node` reaches the tail iff every replica after it (and the tail itself) is reachable; otherwise nothing changes. */
  lemma {:induction false} Head2TailClosedForm(nodes: seq<Store>, node: nat, book: Book, forward: set<nat>, backward: set<nat>)
    requires 1 <= node <= |nodes|
    ensures Head2TailSpec(nodes, node, book, forward, backward)
         == if ForwardReachesTail(node, |nodes|, forward) then Tail2HeadSpec(nodes, |nodes|, book, backward)
            else (nodes, None)
    decreases |nodes| - node
  {
    if node < |nodes| {
      if node + 1 in forward {
        Head2TailClosedForm(nodes, node + 1, book, forward, backward);
      }
    }
  }

  /** The whole effect of AddBook / UpdateBook, in closed form. */
  lemma ChainWriteClosedForm(nodes: seq<Store>, book: Book, forward: set<nat>, backward: set<nat>)
    requires 1 <= |nodes|
    ensures ChainWrite(nodes, book, forward, backward)
         == if ForwardReachesTail(0, |nodes|, forward) then
              (Written(nodes, WalkLow(|nodes|, backward), |nodes|, book),
               if WalkLow(|nodes|, backward) == 1 then Some(true) else None)
            else (nodes, None)
  {
    Head2TailClosedForm(nodes, 1, book, forward, backward);
    Tail2HeadClosedForm(nodes, |nodes|, book, backward);
  }

  // ---------------------------------------------------------------------------
  // Properties of a chain write

  /** With every replica reachable, every replica stores the book under its id, no other key changes, and the answer is success. */
  lemma ChainWriteConverges(nodes: seq<Store>, book: Book, forward: set<nat>, backward: set<nat>)
    requires 1 <= |nodes|
    requires forall j :: 1 <= j <= |nodes| ==> j in forward && j in backward
    ensures |ChainWrite(nodes, book, forward, backward).0| == |nodes|
    ensures forall j :: 0 <= j < |nodes| ==> ChainWrite(nodes, book, forward, backward).0[j] == nodes[j][book.id := book]
    ensures ChainWrite(nodes, book, forward, backward).1 == Some(true)
  {
    ChainWriteClosedForm(nodes, book, forward, backward);
  }

  /** If some replica cannot be reached while the write travels to the tail, no replica changes and there is no response. */
  lemma ChainWriteForwardFailure(nodes: seq<Store>, book: Book, forward: set<nat>, backward: set<nat>, down: nat)
    requires 1 <= down <= |nodes| && down !in forward
    ensures ChainWrite(nodes, book, forward, backward) == (nodes, None)
  {
    ChainWriteClosedForm(nodes, book, forward, backward);
  }

  /**
   * If the acknowledgement reaches replica k but replica k - 1 cannot be
   * reached, replicas k..N hold the new book, replicas 1..k-1 keep their
   * maps, and there is no response.
   */
  lemma ChainWriteBackwardFailure(nodes: seq<Store>, book: Book, forward: set<nat>, backward: set<nat>, k: nat)
    requires 1 < k <= |nodes|
    requires forall j :: 1 <= j <= |nodes| ==> j in forward
    requires forall j :: k <= j < |nodes| ==> j in backward
    requires k - 1 !in backward
    ensures var (after, response) := ChainWrite(nodes, book, forward, backward);
      && |after| == |nodes|
      && (forall j :: k - 1 <= j < |nodes| ==> after[j] == nodes[j][book.id := book])
      && (forall j :: 0 <= j < k - 1 ==> after[j] == nodes[j])
      && response == None
  {
    ChainWriteClosedForm(nodes, book, forward, backward);
    assert WalkLow(|nodes|, backward) == k;
  }

  /**
   * Whatever is reachable: keys other than the book's id are untouched on
   * every replica, the replicas that changed form a suffix ending at the tail,
   * and a success answer means every replica holds the book.
   */
  lemma ChainWriteShape(nodes: seq<Store>, book: Book, forward: set<nat>, backward: set<nat>)
    requires 1 <= |nodes|
    ensures var (after, response) := ChainWrite(nodes, book, forward, backward);
      && |after| == |nodes|
      && (forall j :: 0 <= j < |nodes| ==> after[j] == nodes[j] || after[j] == nodes[j][book.id := book])
      && (forall j, j' :: 0 <= j <= j' < |nodes| && after[j] != nodes[j] ==> after[j'] == nodes[j'][book.id := book])
      && (response == Some(true) ==> forall j :: 0 <= j < |nodes| ==> after[j] == nodes[j][book.id := book])
      && (response == None || response == Some(true))
  {
    ChainWriteClosedForm(nodes, book, forward, backward);
  }

  /** Writing the same book twice under the same reachability leaves the replicas as one write does. */
  lemma ChainWriteIdempotent(nodes: seq<Store>, book: Book, forward: set<nat>, backward: set<nat>)
    requires 1 <= |nodes|
    ensures var once := ChainWrite(nodes, book, forward, backward).0;
      ChainWrite(once, book, forward, backward).0 == once
  {
    ChainWriteClosedForm(nodes, book, forward, backward);
    var once := ChainWrite(nodes, book, forward, backward).0;
    ChainWriteClosedForm(once, book, forward, backward);
    if ForwardReachesTail(0, |nodes|, forward) {
      var low := WalkLow(|nodes|, backward);
      forall j | 0 <= j < |nodes|
        ensures Written(once, low, |nodes|, book)[j] == once[j]
      {
      }
      assert Written(once, low, |nodes|, book) == once;
    }
  }

  /** The value GetBook serves from one replica's map: the entry, or a failure for a missing key. */
  function Lookup(books: Store, id: string): (found: Option<Book>)
    ensures found.Some? <==> id in books
    ensures found.Some? ==> found.value == books[id]
  {
    if id in books then Some(books[id]) else None
  }

  /** After a write answered with success, GetBook for that id returns the new book on every replica. */
  lemma SuccessfulWriteReadableEverywhere(nodes: seq<Store>, book: Book, forward: set<nat>, backward: set<nat>)
    requires 1 <= |nodes|
    requires ChainWrite(nodes, book, forward, backward).1 == Some(true)
    ensures forall j :: 0 <= j < |nodes| ==> Lookup(ChainWrite(nodes, book, forward, backward).0[j], book.id) == Some(book)
  {
    ChainWriteShape(nodes, book, forward, backward);
  }

  // ---------------------------------------------------------------------------
  // The replicas

  /** The N replicas of the book database; `stores[i - 1]` is the `books` map of replica i, and replica N is the tail. */
  class BookChain {
    const stores: array<Store>

    /** Every replica loads the same book list (`BookDatabaseService.__init__`). */
    constructor (totalNodes: nat, bookList: seq<Book>)
      requires 1 <= totalNodes
      ensures stores.Length == totalNodes && fresh(stores)
      ensures forall i :: 0 <= i < totalNodes ==> stores[i] == Catalog(bookList)
    {
      var initial := BuildStore(bookList);
      stores := new Store[totalNodes](_ => initial);
    }

    /** `AddBook`: forward the request to replica 1's Head2Tail and return its answer. */
    method AddBook(book: Book, forward: set<nat>, backward: set<nat>) returns (response: Option<bool>)
      requires 1 <= stores.Length
      modifies stores
      ensures (stores[..], response) == ChainWrite(old(stores[..]), book, forward, backward)
    {
      if 1 in forward {
        response := Head2Tail(1, book, forward, backward);
      } else {
        response := None;
      }
    }

    /** `UpdateBook`: the same path as AddBook. */
    method UpdateBook(book: Book, forward: set<nat>, backward: set<nat>) returns (response: Option<bool>)
      requires 1 <= stores.Length
      modifies stores
      ensures (stores[..], response) == ChainWrite(old(stores[..]), book, forward, backward)
    {
      if 1 in forward {
        response := Head2Tail(1, book, forward, backward);
      } else {
        response := None;
      }
    }

    /** `GetBook` on replica `node`: its own entry for the id, or a failure when the key is missing. */
    method GetBook(node: nat, requestId: string) returns (book: Option<Book>)
      requires 1 <= node <= stores.Length
      ensures requestId in stores[node - 1] ==> book == Some(stores[node - 1][requestId])
      ensures requestId !in stores[node - 1] ==> book == None
    {
      book := Lookup(stores[node - 1], requestId);
    }

    /** `Head2Tail` on replica `node`. */
    method Head2Tail(node: nat, book: Book, forward: set<nat>, backward: set<nat>) returns (response: Option<bool>)
      requires 1 <= node <= stores.Length
      modifies stores
      ensures (stores[..], response) == Head2TailSpec(old(stores[..]), node, book, forward, backward)
      decreases stores.Length - node
    {
      if node < stores.Length {
        var next := node + 1;
        if next in forward {
          response := Head2Tail(next, book, forward, backward);
        } else {
          response := None;
        }
      } else {
        if node in forward {
          response := Tail2Head(node, book, backward);
        } else {
          response := None;
        }
      }
    }

    /** `Tail2Head` on replica `node`. */
    method Tail2Head(node: nat, book: Book, backward: set<nat>) returns (response: Option<bool>)
      requires 1 <= node <= stores.Length
      modifies stores
      ensures (stores[..], response) == Tail2HeadSpec(old(stores[..]), node, book, backward)
      decreases node
    {
      var next := node - 1;
      stores[node - 1] := stores[node - 1][book.id := book];
      if 0 < next {
        if next in backward {
          response := Tail2Head(next, book, backward);
        } else {
          response := None;
        }
      } else {
        response := Some(true);
      }
    }
  }
}
