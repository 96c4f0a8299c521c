/** The in-memory repositories: a map from IDs to pointers, whose records the services change in place. */
module Tables {
  import opened Basics

  /** A Go pointer to a record. */
  class Ref<T> {
    var v: T

    constructor (v: T)
      ensures this.v == v
    {
      this.v := v;
    }
  }

  class Table<T> {
    var rows: map<string, Ref<T>>
    ghost var refs: set<Ref<T>>

    /** No record is stored under two IDs; `refs` covers all of them. */
    ghost predicate Valid()
      reads this
    {
      && (forall k <- rows :: rows[k] in refs)
      && (forall a, b :: a in rows && b in rows && a != b ==> rows[a] != rows[b])
    }

    /** Every record that the table has gained is a new object. */
    twostate predicate Grown()
      reads this
    {
      forall r <- refs :: r in old(refs) || fresh(r)
    }

    /** The records by value. */
    ghost function View(): map<string, T>
      requires Valid()
      reads this, refs
    {
      map k | k in rows :: rows[k].v
    }

    constructor ()
      ensures refs == {} && Valid() && View() == map[]
    {
      rows, refs := map[], {};
    }

    /** A repository that starts with some records. */
    constructor Seeded(initial: map<string, T>)
      ensures Valid() && fresh(refs) && View() == initial
    {
      rows, refs := map[], {};
      new;
      var todo := initial.Keys;
      while todo != {}
        invariant todo <= initial.Keys
        invariant Valid() && fresh(refs)
        invariant View() == map k | k in initial && k !in todo :: initial[k]
        decreases todo
      {
        var k :| k in todo;
        Store(k, initial[k]);
        todo := todo - {k};
      }
    }

    /** Get and GetByID: the stored pointer itself, or nil. */
    function Get(id: string): (r: Ref?<T>)
      requires Valid()
      reads this, refs
      ensures r == null <==> id !in View()
      ensures r != null ==> id in rows && r == rows[id] && r in refs && View()[id] == r.v
    {
      if id in rows then rows[id] else null
    }

    /** Store: a new record under an ID. */
    method Store(id: string, v: T)
      requires Valid()
      modifies this
      ensures Valid() && View() == old(View())[id := v]
      ensures Grown()
    {
      var r := new Ref(v);
      rows, refs := rows[id := r], refs + {r};
    }

    /** An assignment through a stored pointer. */
    method Write(id: string, r: Ref<T>, v: T)
      requires Valid() && id in rows && rows[id] == r
      modifies r
      ensures Valid() && View() == old(View())[id := v]
    {
      r.v := v;
    }

    /** The loops of RevokeFamily and RevokeAllByUser: change in place every record that matches. */
    method UpdateWhere(matches: T -> bool, change: T -> T)
      requires Valid()
      modifies refs
      ensures Valid()
      ensures View() ==
              map k | k in old(View()) ::
                if matches(old(View())[k]) then change(old(View())[k]) else old(View())[k]
    {
      var todo := rows.Keys;
      ghost var was := View();
      while todo != {}
        modifies refs
        invariant todo <= rows.Keys
        invariant forall k <- rows :: rows[k].v == if k in todo || !matches(was[k]) then was[k] else change(was[k])
        decreases todo
      {
        var k :| k in todo;
        var r := rows[k];
        if matches(r.v) {
          r.v := change(r.v);
        }
        todo := todo - {k};
      }
    }

    /** The loops of DeleteExpired and of the limiter's cleanup: drop every record that matches. */
    method DeleteWhere(matches: T -> bool)
      requires Valid()
      modifies this
      ensures Valid() && refs == old(refs)
      ensures View() == map k | k in old(View()) && !matches(old(View())[k]) :: old(View())[k]
    {
      var todo := rows.Keys;
      ghost var was := rows;
      while todo != {}
        invariant todo <= was.Keys && rows.Keys <= was.Keys && refs == old(refs)
        invariant forall k <- rows :: rows[k] == was[k]
        invariant forall k <- was :: k in rows <==> k in todo || !matches(was[k].v)
        decreases todo
      {
        var k :| k in todo;
        if matches(rows[k].v) {
          rows := rows - {k};
        }
        todo := todo - {k};
      }
    }

    /** The loop of FindByIdentifier: some matching record, in no particular order. */
    method FindWhere(matches: T -> bool) returns (found: Option<string>)
      requires Valid()
      ensures found.Some? ==> found.value in View() && matches(View()[found.value])
      ensures found.None? ==> forall k <- View() :: !matches(View()[k])
    {
      var todo := rows.Keys;
      while todo != {}
        invariant todo <= rows.Keys
        invariant forall k <- rows :: k in todo || !matches(rows[k].v)
        decreases todo
      {
        var k :| k in todo;
        if matches(rows[k].v) {
          return Some(k);
        }
        todo := todo - {k};
      }
      found := None;
    }
  }
}
