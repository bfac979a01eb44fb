/** The in-memory store: a map from id to support request and an id counter
    that starts at 1 and only ever moves forward. The Java map is shared
    between threads; here the store is a value and every operation returns
    the next one. */
module Repository {
  import opened Wrappers
  import opened Enums
  import opened Domain

  datatype Store = Store(database: map<int, SolicitacaoSuporte>, idGenerator: nat)

  /** What `save` and `update` hand back: the stored request and the new store. */
  datatype Saved = Saved(ticket: SolicitacaoSuporte, store: Store)

  /** Every entry is stored under its own id. `save` and `update` both key
      the map by `getId()`, so this holds of every store they build. */
  predicate Keyed(db: map<int, SolicitacaoSuporte>)
  {
    forall k :: k in db ==> db[k].id == Some(k)
  }

  /** The store invariant: entries are keyed by their id and every id in use
      was handed out by the counter, so it lies below the counter. */
  predicate Valid(s: Store)
  {
    && s.idGenerator >= 1
    && Keyed(s.database)
    && forall k :: k in s.database ==> 1 <= k < s.idGenerator
  }

  /** The store as the application starts it. */
  function Empty(): (s: Store)
    ensures Valid(s) && |s.database| == 0 && s.idGenerator == 1
  {
    Store(map[], 1)
  }

  /** `save`: an id-less request receives the counter's value and the counter
      advances by one; a request that has an id keeps it and the counter stays.
      Either way the entry at the request's id is overwritten. */
  function Save(s: Store, t: SolicitacaoSuporte): (r: Saved)
    ensures r.ticket.id.Some? && r.store.database == s.database[r.ticket.id.value := r.ticket]
    ensures t.id.None? ==> r.ticket == SetId(t, Some(s.idGenerator)) && r.store.idGenerator == s.idGenerator + 1
    ensures t.id.Some? ==> r.ticket == t && r.store.idGenerator == s.idGenerator
    ensures Keyed(s.database) ==> Keyed(r.store.database)
    ensures Valid(s) && t.id.None? ==>
              s.idGenerator !in s.database && Valid(r.store) && |r.store.database| == |s.database| + 1
  {
    var stored := if t.id.None? then SetId(t, Some(s.idGenerator)) else t;
    var next := if t.id.None? then s.idGenerator + 1 else s.idGenerator;
    Saved(stored, Store(s.database[stored.id.value := stored], next))
  }

  /** `findById`: never fails; absent keys give an empty result. */
  function FindById(s: Store, id: int): (r: Option<SolicitacaoSuporte>)
    ensures r.Some? <==> id in s.database
    ensures r.Some? ==> r.value == s.database[id]
  {
    if id in s.database then Some(s.database[id]) else None
  }

  /** `update`: puts the request at its own id without checking that the id
      is already present. A null id makes the Java map throw, hence the
      precondition. */
  function Update(s: Store, t: SolicitacaoSuporte): (r: Saved)
    requires t.id.Some?
    ensures r.ticket == t && r.store.idGenerator == s.idGenerator
    ensures t.id.value in r.store.database && r.store.database[t.id.value] == t
    ensures forall k :: k != t.id.value ==>
              (k in r.store.database <==> k in s.database)
              && (k in s.database ==> r.store.database[k] == s.database[k])
  {
    Saved(t, Store(s.database[t.id.value := t], s.idGenerator))
  }

  /** `deleteById`: removes that key only; absent keys are a no-op. The
      counter is not touched. */
  function DeleteById(s: Store, id: int): (r: Store)
    ensures r.database.Keys == s.database.Keys - {id}
    ensures forall k :: k in r.database ==> r.database[k] == s.database[k]
    ensures r.idGenerator == s.idGenerator
    ensures id !in s.database ==> r == s
  {
    Store(s.database - {id}, s.idGenerator)
  }

  /** `existsById`: membership of the key. */
  function ExistsById(s: Store, id: int): (b: bool)
    ensures b <==> id in s.database
  {
    id in s.database
  }

  /** `count`: the number of stored requests. */
  function Count(s: Store): (n: nat)
    ensures n == |s.database| && n == |s.database.Keys|
  {
    |s.database|
  }

  /** `deleteAll`: empties the map but keeps the counter. */
  function DeleteAll(s: Store): (r: Store)
    ensures |r.database| == 0 && r.idGenerator == s.idGenerator
    ensures Valid(s) ==> Valid(r)
  {
    Store(map[], s.idGenerator)
  }

  /** `existsById` and `findById` agree, and `count` moves by exactly one on a
      first save and on the removal of a present key. */
  lemma ExistsAndCountAgreeWithFind(s: Store, id: int, t: SolicitacaoSuporte)
    requires Valid(s)
    ensures ExistsById(s, id) <==> FindById(s, id).Some?
    ensures t.id.None? ==> Count(Save(s, t).store) == Count(s) + 1
    ensures id in s.database ==> Count(DeleteById(s, id)) == Count(s) - 1
    ensures id !in s.database ==> Count(DeleteById(s, id)) == Count(s)
  {
  }

  /** A saved request is found again under the id `save` gave it, and a
      deleted key is no longer found while every other key still is. */
  lemma FindAfterSaveAndDelete(s: Store, t: SolicitacaoSuporte, id: int, other: int)
    ensures var r := Save(s, t); FindById(r.store, r.ticket.id.value) == Some(r.ticket)
    ensures FindById(DeleteById(s, id), id) == None
    ensures other != id ==> FindById(DeleteById(s, id), other) == FindById(s, other)
  {
  }

  // ---------------------------------------------------------------------
  // Listings. The Java map has no defined iteration order, so the two
  // listing operations are methods that visit the keys in an arbitrary
  // order; their contracts say which entries are listed, each once.
  // ---------------------------------------------------------------------

  lemma NonEmptyHasMember(keys: set<int>)
    requires keys != {}
    ensures exists k :: k in keys
  {
    if forall k :: k !in keys {
      assert false;
    }
  }

  predicate Distinct(ks: seq<int>)
  {
    forall i, j :: 0 <= i < j < |ks| ==> ks[i] != ks[j]
  }

  /** `r` lists the entries of `db` under the keys `ks`, each key exactly once. */
  ghost predicate ListedBy(r: seq<SolicitacaoSuporte>, db: map<int, SolicitacaoSuporte>, ks: seq<int>)
  {
    && |ks| == |r|
    && Distinct(ks)
    && (forall i :: 0 <= i < |ks| ==> ks[i] in db && r[i] == db[ks[i]])
    && (forall k :: k in db ==> k in ks)
  }

  /** `r` is the values of `db` in some order: a permutation of its entries. */
  ghost predicate IsListingOf(r: seq<SolicitacaoSuporte>, db: map<int, SolicitacaoSuporte>)
  {
    exists ks :: ListedBy(r, db, ks)
  }

  /** The entries of `db` whose status is `status`. */
  function WithStatus(db: map<int, SolicitacaoSuporte>, status: StatusSolicitacao): map<int, SolicitacaoSuporte>
  {
    map k | k in db && db[k].status == status :: db[k]
  }

  lemma {:induction false} DistinctCardinality(ks: seq<int>)
    requires Distinct(ks)
    ensures |set k | k in ks| == |ks|
  {
    if ks != [] {
      var last := ks[|ks| - 1];
      var init := ks[..|ks| - 1];
      assert Distinct(init);
      DistinctCardinality(init);
      assert (set k | k in ks) == (set k | k in init) + {last};
      assert last !in (set k | k in init);
    }
  }

  /** A listing has one element per entry. */
  lemma ListingLength(r: seq<SolicitacaoSuporte>, db: map<int, SolicitacaoSuporte>, ks: seq<int>)
    requires ListedBy(r, db, ks)
    ensures |r| == |db|
  {
    DistinctCardinality(ks);
    var listed := set k | k in ks;
    forall k | k in ks
      ensures k in db
    {
      var i :| 0 <= i < |ks| && ks[i] == k;
    }
    forall k | k in db
      ensures k in listed
    {
      assert k in ks;
    }
    assert listed == db.Keys;
  }

  /** Dropping the last element of a listing lists the map without its key. */
  lemma ListingWithoutLast(r: seq<SolicitacaoSuporte>, db: map<int, SolicitacaoSuporte>, ks: seq<int>)
    requires ListedBy(r, db, ks) && |r| > 0
    ensures ListedBy(r[..|r| - 1], db - {ks[|r| - 1]}, ks[..|r| - 1])
  {
  }

  /** `findAll`: a snapshot list of every stored request. */
  method FindAll(s: Store) returns (r: seq<SolicitacaoSuporte>)
    ensures IsListingOf(r, s.database)
    ensures |r| == |s.database|
    ensures forall k :: k in s.database ==> s.database[k] in r
  {
    r := [];
    ghost var ks: seq<int> := [];
    var rest := s.database.Keys;
    while rest != {}
      invariant rest <= s.database.Keys
      invariant |ks| == |r| && Distinct(ks)
      invariant forall i :: 0 <= i < |ks| ==> ks[i] in s.database && ks[i] !in rest && r[i] == s.database[ks[i]]
      invariant forall k :: k in s.database && k !in rest ==> k in ks
      decreases rest
    {
      NonEmptyHasMember(rest);
      var key :| key in rest;
      r := r + [s.database[key]];
      ks := ks + [key];
      rest := rest - {key};
    }
    assert ListedBy(r, s.database, ks);
    ListingLength(r, s.database, ks);
    forall k | k in s.database
      ensures s.database[k] in r
    {
      var i :| 0 <= i < |ks| && ks[i] == k;
      assert r[i] == s.database[k];
    }
  }

  /** `findByStatus`: the stored requests whose status is `status`. */
  method FindByStatus(s: Store, status: StatusSolicitacao) returns (r: seq<SolicitacaoSuporte>)
    ensures IsListingOf(r, WithStatus(s.database, status))
    ensures |r| == |WithStatus(s.database, status)|
    ensures forall i :: 0 <= i < |r| ==> r[i].status == status && r[i] in s.database.Values
  {
    r := [];
    ghost var ks: seq<int> := [];
    var rest := s.database.Keys;
    while rest != {}
      invariant rest <= s.database.Keys
      invariant |ks| == |r| && Distinct(ks)
      invariant forall i :: 0 <= i < |ks| ==>
                  ks[i] in s.database && ks[i] !in rest && s.database[ks[i]].status == status
                  && r[i] == s.database[ks[i]]
      invariant forall k :: k in s.database && k !in rest && s.database[k].status == status ==> k in ks
      decreases rest
    {
      NonEmptyHasMember(rest);
      var key :| key in rest;
      if s.database[key].status == status {
        r := r + [s.database[key]];
        ks := ks + [key];
      }
      rest := rest - {key};
    }
    assert ListedBy(r, WithStatus(s.database, status), ks);
    ListingLength(r, WithStatus(s.database, status), ks);
  }

  // ---------------------------------------------------------------------
  // Id allocation over any sequence of store operations.
  // ---------------------------------------------------------------------

  datatype Op = SaveOp(ticket: SolicitacaoSuporte) | UpdateOp(ticket: SolicitacaoSuporte)
              | DeleteByIdOp(id: int) | DeleteAllOp

  /** The Java map rejects a null key, so an `update` needs an id. */
  predicate Applicable(op: Op)
  {
    op.UpdateOp? ==> op.ticket.id.Some?
  }

  function Apply(s: Store, op: Op): Store
    requires Applicable(op)
  {
    match op
    case SaveOp(t) => Save(s, t).store
    case UpdateOp(t) => Update(s, t).store
    case DeleteByIdOp(id) => DeleteById(s, id)
    case DeleteAllOp => DeleteAll(s)
  }

  function Replay(s: Store, ops: seq<Op>): Store
    requires forall i :: 0 <= i < |ops| ==> Applicable(ops[i])
    decreases |ops|
  {
    if ops == [] then s else Replay(Apply(s, ops[0]), ops[1..])
  }

  /** The ids handed out by the counter while replaying `ops`, in order. */
  function Allocated(s: Store, ops: seq<Op>): seq<int>
    requires forall i :: 0 <= i < |ops| ==> Applicable(ops[i])
    decreases |ops|
  {
    if ops == [] then []
    else
      var here := if Allocates(ops[0]) then [s.idGenerator as int] else [];
      here + Allocated(Apply(s, ops[0]), ops[1..])
  }

  /** Whether applying `op` draws an id from the counter. */
  predicate Allocates(op: Op)
  {
    op.SaveOp? && op.ticket.id.None?
  }

  /** Only a save of an id-less request moves the counter, by exactly one. */
  lemma ApplyCounter(s: Store, op: Op)
    requires Applicable(op)
    ensures Apply(s, op).idGenerator == if Allocates(op) then s.idGenerator + 1 else s.idGenerator
  {
  }

  predicate Increasing(a: seq<int>)
  {
    forall i, j :: 0 <= i < j < |a| ==> a[i] < a[j]
  }

  predicate Within(a: seq<int>, lo: int, hi: int)
  {
    forall i :: 0 <= i < |a| ==> lo <= a[i] < hi
  }

  lemma PrependSmaller(x: int, a: seq<int>, hi: int)
    requires Increasing(a) && Within(a, x + 1, hi) && x < hi
    ensures Increasing([x] + a) && Within([x] + a, x, hi)
  {
  }

  /** Ids are never reused: the counter never moves back, whatever is
      updated or deleted in between, and the ids it hands out are strictly
      increasing, at least the starting counter and below the final one. */
  lemma {:induction false} IdsNeverReused(s: Store, ops: seq<Op>)
    requires forall i :: 0 <= i < |ops| ==> Applicable(ops[i])
    ensures Replay(s, ops).idGenerator >= s.idGenerator
    ensures Increasing(Allocated(s, ops))
    ensures Within(Allocated(s, ops), s.idGenerator, Replay(s, ops).idGenerator)
    decreases |ops|
  {
    if ops != [] {
      var next := Apply(s, ops[0]);
      ApplyCounter(s, ops[0]);
      IdsNeverReused(next, ops[1..]);
      var rest := Allocated(next, ops[1..]);
      assert Replay(s, ops) == Replay(next, ops[1..]);
      if Allocates(ops[0]) {
        assert Allocated(s, ops) == [s.idGenerator as int] + rest;
        PrependSmaller(s.idGenerator, rest, Replay(s, ops).idGenerator);
      } else {
        assert Allocated(s, ops) == rest;
      }
    }
  }
}
