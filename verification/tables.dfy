/** A relational table as an immutable value: the stored rows keyed by id,
    plus the autoincrement counter that hands out the next id. Child tables
    are read through a foreign-key projection `owner`, which is how every
    "all rows whose parent is p" query of the application is phrased. */
module Tables {

  datatype Entry<R> = Entry(id: int, row: R)

  datatype Table<R> = Table(rows: map<int, R>, next: int)

  function Empty<R>(): (t: Table<R>)
    ensures Valid(t) && |t.rows| == 0
  {
    Table(map[], 1)
  }

  /** Ids are handed out from 1 upward, and every stored id is below the counter. */
  ghost predicate Valid<R>(t: Table<R>) {
    t.next >= 1 && forall id :: id in t.rows ==> 1 <= id < t.next
  }

  /** Adds one row under a fresh id; returns the new table and that id. */
  function Insert<R>(t: Table<R>, r: R): (res: (Table<R>, int))
    ensures res.1 == t.next && res.0.next == t.next + 1
    ensures res.0.rows.Keys == t.rows.Keys + {res.1} && res.0.rows[res.1] == r
    ensures forall id :: id in t.rows && id != res.1 ==> res.0.rows[id] == t.rows[id]
    ensures Valid(t) ==> Valid(res.0) && res.1 !in t.rows
  {
    (Table(t.rows[t.next := r], t.next + 1), t.next)
  }

  /** Adds the rows one after the other, so that they receive consecutive ids. */
  function InsertAll<R>(t: Table<R>, rs: seq<R>): (t': Table<R>)
    ensures t'.next == t.next + |rs|
    ensures forall k :: k in t'.rows <==> k in t.rows || t.next <= k < t.next + |rs|
    ensures forall i :: 0 <= i < |rs| ==> t'.rows[t.next + i] == rs[i]
    ensures forall k :: k in t.rows && !(t.next <= k < t.next + |rs|) ==> t'.rows[k] == t.rows[k]
    ensures Valid(t) ==> Valid(t')
    decreases |rs|
  {
    if |rs| == 0 then t
    else
      var t1 := Insert(t, rs[0]).0;
      InsertAll(t1, rs[1..])
  }

  /** Every row added by `InsertAll` carries the foreign key its rows carry. */
  lemma InsertAllOwned<R>(t: Table<R>, rs: seq<R>, owner: R -> int, parent: int)
    requires forall i :: 0 <= i < |rs| ==> owner(rs[i]) == parent
    ensures forall k :: k in InsertAll(t, rs).rows && k !in t.rows ==> owner(InsertAll(t, rs).rows[k]) == parent
  {
    var t' := InsertAll(t, rs);
    forall k | k in t'.rows && k !in t.rows
      ensures owner(t'.rows[k]) == parent
    {
      assert t'.rows[t.next + (k - t.next)] == rs[k - t.next];
    }
  }

  /** Removes the row with the given id, if any. */
  function Remove<R>(t: Table<R>, id: int): (t': Table<R>)
    ensures t'.next == t.next && t'.rows.Keys == t.rows.Keys - {id}
    ensures forall k :: k in t'.rows ==> t'.rows[k] == t.rows[k]
    ensures Valid(t) ==> Valid(t')
  {
    Table(t.rows - {id}, t.next)
  }

  /** Replaces the row stored under an existing id. */
  function Replace<R>(t: Table<R>, id: int, r: R): (t': Table<R>)
    requires id in t.rows
    ensures t'.next == t.next && t'.rows.Keys == t.rows.Keys && t'.rows[id] == r
    ensures forall k :: k in t.rows && k != id ==> t'.rows[k] == t.rows[k]
    ensures Valid(t) ==> Valid(t')
  {
    Table(t.rows[id := r], t.next)
  }

  /** Removes every row whose foreign key `owner` equals `parent`. */
  function DeleteWhere<R>(t: Table<R>, owner: R -> int, parent: int): (t': Table<R>)
    ensures t'.next == t.next
    ensures forall k :: k in t'.rows <==> k in t.rows && owner(t.rows[k]) != parent
    ensures forall k :: k in t'.rows ==> t'.rows[k] == t.rows[k]
    ensures Valid(t) ==> Valid(t')
  {
    Table(map k | k in t.rows && owner(t.rows[k]) != parent :: t.rows[k], t.next)
  }

  /** The rows below id `n` whose foreign key is `parent`, in ascending id order. */
  function ChildrenBelow<R>(rows: map<int, R>, owner: R -> int, parent: int, n: int): seq<Entry<R>>
    decreases n
  {
    if n <= 0 then []
    else
      ChildrenBelow(rows, owner, parent, n - 1)
      + (if n - 1 in rows && owner(rows[n - 1]) == parent then [Entry(n - 1, rows[n - 1])] else [])
  }

  /** Read of a child table filtered by its foreign key (a `findMany where`
      or an `include`), rows in ascending id order. */
  function Children<R>(t: Table<R>, owner: R -> int, parent: int): seq<Entry<R>>
  {
    ChildrenBelow(t.rows, owner, parent, t.next)
  }

  /** The rows a caller expects back from consecutive inserts starting at `first`. */
  function Numbered<R>(first: int, rs: seq<R>): (es: seq<Entry<R>>)
    ensures |es| == |rs|
    ensures forall i :: 0 <= i < |rs| ==> es[i] == Entry(first + i, rs[i])
    decreases |rs|
  {
    if |rs| == 0 then [] else [Entry(first, rs[0])] + Numbered(first + 1, rs[1..])
  }

  /** Like `Numbered`, keeping only rows whose foreign key is `parent`. */
  function NumberedOwned<R>(first: int, rs: seq<R>, owner: R -> int, parent: int): seq<Entry<R>>
    decreases |rs|
  {
    if |rs| == 0 then []
    else
      (if owner(rs[0]) == parent then [Entry(first, rs[0])] else [])
      + NumberedOwned(first + 1, rs[1..], owner, parent)
  }

  function Rows<R>(es: seq<Entry<R>>): (rs: seq<R>)
    ensures |rs| == |es| && forall i :: 0 <= i < |es| ==> rs[i] == es[i].row
  {
    seq(|es|, i requires 0 <= i < |es| => es[i].row)
  }

  function Ids<R>(es: seq<Entry<R>>): (ids: seq<int>)
    ensures |ids| == |es| && forall i :: 0 <= i < |es| ==> ids[i] == es[i].id
  {
    seq(|es|, i requires 0 <= i < |es| => es[i].id)
  }

  lemma RowsNumbered<R>(first: int, rs: seq<R>)
    ensures Rows(Numbered(first, rs)) == rs
  {
  }

  lemma NumberedOwnedAll<R>(first: int, rs: seq<R>, owner: R -> int, parent: int)
    requires forall i :: 0 <= i < |rs| ==> owner(rs[i]) == parent
    ensures NumberedOwned(first, rs, owner, parent) == Numbered(first, rs)
    decreases |rs|
  {
    if |rs| > 0 {
      NumberedOwnedAll(first + 1, rs[1..], owner, parent);
    }
  }

  lemma NumberedOwnedNone<R>(first: int, rs: seq<R>, owner: R -> int, parent: int)
    requires forall i :: 0 <= i < |rs| ==> owner(rs[i]) != parent
    ensures NumberedOwned(first, rs, owner, parent) == []
    decreases |rs|
  {
    if |rs| > 0 {
      NumberedOwnedNone(first + 1, rs[1..], owner, parent);
    }
  }

  /** Reading below `n` only looks at ids below `n`. */
  lemma {:induction false} ChildrenBelowFrame<R>(rows: map<int, R>, rows': map<int, R>, owner: R -> int, parent: int, n: int)
    requires forall k :: k < n ==> (k in rows <==> k in rows')
    requires forall k :: k < n && k in rows ==> rows[k] == rows'[k]
    ensures ChildrenBelow(rows, owner, parent, n) == ChildrenBelow(rows', owner, parent, n)
    decreases n
  {
    if n > 0 {
      ChildrenBelowFrame(rows, rows', owner, parent, n - 1);
    }
  }

  /** Reading further than the largest id adds nothing. */
  lemma {:induction false} ChildrenBelowBeyond<R>(rows: map<int, R>, owner: R -> int, parent: int, n: int, m: int)
    requires n <= m
    requires forall k :: k in rows ==> k < n
    ensures ChildrenBelow(rows, owner, parent, m) == ChildrenBelow(rows, owner, parent, n)
    decreases m - n
  {
    if n < m {
      ChildrenBelowBeyond(rows, owner, parent, n, m - 1);
    }
  }

  /** The read of a child table lists exactly the rows stored under `parent`,
      with their ids, in strictly ascending id order. */
  lemma {:induction false} ChildrenExact<R>(t: Table<R>, owner: R -> int, parent: int)
    requires Valid(t)
    ensures forall e :: e in Children(t, owner, parent) <==>
      e.id in t.rows && t.rows[e.id] == e.row && owner(e.row) == parent
    ensures forall i, j :: 0 <= i < j < |Children(t, owner, parent)| ==>
      Children(t, owner, parent)[i].id < Children(t, owner, parent)[j].id
  {
    BelowExact(t.rows, owner, parent, t.next);
  }

  lemma {:induction false} BelowExact<R>(rows: map<int, R>, owner: R -> int, parent: int, n: int)
    ensures forall e :: e in ChildrenBelow(rows, owner, parent, n) <==>
      e.id < n && e.id >= 0 && e.id in rows && rows[e.id] == e.row && owner(e.row) == parent
    ensures forall i, j :: 0 <= i < j < |ChildrenBelow(rows, owner, parent, n)| ==>
      ChildrenBelow(rows, owner, parent, n)[i].id < ChildrenBelow(rows, owner, parent, n)[j].id
    ensures forall i :: 0 <= i < |ChildrenBelow(rows, owner, parent, n)| ==>
      ChildrenBelow(rows, owner, parent, n)[i].id < n
    decreases n
  {
    if n > 0 {
      BelowExact(rows, owner, parent, n - 1);
    }
  }

  /** Inserting rows appends, to every parent's read, the new rows it owns in
      insertion order and with consecutive fresh ids. */
  lemma {:induction false} ChildrenInsertAll<R>(t: Table<R>, rs: seq<R>, owner: R -> int, parent: int)
    requires Valid(t)
    ensures Children(InsertAll(t, rs), owner, parent)
         == Children(t, owner, parent) + NumberedOwned(t.next, rs, owner, parent)
    decreases |rs|
  {
    if |rs| > 0 {
      var t1 := Insert(t, rs[0]).0;
      var head := if owner(rs[0]) == parent then [Entry(t.next, rs[0])] else [];
      var tail := NumberedOwned(t.next + 1, rs[1..], owner, parent);
      calc {
        Children(InsertAll(t, rs), owner, parent);
        { assert InsertAll(t, rs) == InsertAll(t1, rs[1..]); }
        Children(InsertAll(t1, rs[1..]), owner, parent);
        { ChildrenInsertAll(t1, rs[1..], owner, parent); assert t1.next == t.next + 1; }
        Children(t1, owner, parent) + tail;
        { ChildrenInsert(t, rs[0], owner, parent); }
        (Children(t, owner, parent) + head) + tail;
        { ConcatAssoc(Children(t, owner, parent), head, tail); }
        Children(t, owner, parent) + (head + tail);
        { NumberedOwnedHead(t.next, rs, owner, parent); }
        Children(t, owner, parent) + NumberedOwned(t.next, rs, owner, parent);
      }
    }
  }

  lemma ConcatAssoc<T>(a: seq<T>, b: seq<T>, c: seq<T>)
    ensures (a + b) + c == a + (b + c)
  {
  }

  /** `NumberedOwned` splits off its first row. */
  lemma NumberedOwnedHead<R>(first: int, rs: seq<R>, owner: R -> int, parent: int)
    requires |rs| > 0
    ensures NumberedOwned(first, rs, owner, parent)
         == (if owner(rs[0]) == parent then [Entry(first, rs[0])] else []) + NumberedOwned(first + 1, rs[1..], owner, parent)
  {
  }

  /** A parent that no row refers to has no children. */
  lemma NoChildren<R>(t: Table<R>, owner: R -> int, parent: int)
    requires forall k :: k in t.rows ==> owner(t.rows[k]) != parent
    ensures Children(t, owner, parent) == []
  {
    NoChildrenBelow(t.rows, owner, parent, t.next);
  }

  lemma {:induction false} NoChildrenBelow<R>(rows: map<int, R>, owner: R -> int, parent: int, n: int)
    requires forall k :: k in rows ==> owner(rows[k]) != parent
    ensures ChildrenBelow(rows, owner, parent, n) == []
    decreases n
  {
    if n > 0 {
      NoChildrenBelow(rows, owner, parent, n - 1);
    }
  }

  /** Inserting rows that all belong to a parent with no children yet makes
      its read exactly those rows, numbered from the first fresh id. */
  lemma ChildrenInsertAllFresh<R>(t: Table<R>, rs: seq<R>, owner: R -> int, parent: int)
    requires Valid(t)
    requires forall k :: k in t.rows ==> owner(t.rows[k]) != parent
    requires forall i :: 0 <= i < |rs| ==> owner(rs[i]) == parent
    ensures Children(InsertAll(t, rs), owner, parent) == Numbered(t.next, rs)
  {
    NoChildren(t, owner, parent);
    ChildrenInsertAll(t, rs, owner, parent);
    NumberedOwnedAll(t.next, rs, owner, parent);
  }

  /** Inserting rows none of which belongs to `parent` leaves its read as it was. */
  lemma ChildrenInsertAllOther<R>(t: Table<R>, rs: seq<R>, owner: R -> int, parent: int)
    requires Valid(t)
    requires forall i :: 0 <= i < |rs| ==> owner(rs[i]) != parent
    ensures Children(InsertAll(t, rs), owner, parent) == Children(t, owner, parent)
  {
    ChildrenInsertAll(t, rs, owner, parent);
    NumberedOwnedNone(t.next, rs, owner, parent);
  }

  /** Inserting one row appends it to its own parent's read only. */
  lemma ChildrenInsert<R>(t: Table<R>, r: R, owner: R -> int, parent: int)
    requires Valid(t)
    ensures Children(Insert(t, r).0, owner, parent)
         == Children(t, owner, parent) + (if owner(r) == parent then [Entry(t.next, r)] else [])
  {
    ChildrenBelowFrame(Insert(t, r).0.rows, t.rows, owner, parent, t.next);
  }

  /** After `DeleteWhere(parent)` that parent has no children left, and every
      other parent keeps exactly the children it had. */
  lemma {:induction false} ChildrenDeleteWhere<R>(t: Table<R>, owner: R -> int, parent: int, q: int)
    ensures Children(DeleteWhere(t, owner, parent), owner, q)
         == if q == parent then [] else Children(t, owner, q)
  {
    DeleteWhereBelow(t, owner, parent, q, t.next);
  }

  lemma {:induction false} DeleteWhereBelow<R>(t: Table<R>, owner: R -> int, parent: int, q: int, n: int)
    ensures ChildrenBelow(DeleteWhere(t, owner, parent).rows, owner, q, n)
         == if q == parent then [] else ChildrenBelow(t.rows, owner, q, n)
    decreases n
  {
    if n > 0 {
      DeleteWhereBelow(t, owner, parent, q, n - 1);
    }
  }

  /** Removing one row leaves the read of every other parent unchanged. */
  lemma {:induction false} ChildrenRemoveOther<R>(t: Table<R>, id: int, owner: R -> int, q: int)
    requires id !in t.rows || owner(t.rows[id]) != q
    ensures Children(Remove(t, id), owner, q) == Children(t, owner, q)
  {
    RemoveOtherBelow(t, id, owner, q, t.next);
  }

  lemma {:induction false} RemoveOtherBelow<R>(t: Table<R>, id: int, owner: R -> int, q: int, n: int)
    requires id !in t.rows || owner(t.rows[id]) != q
    ensures ChildrenBelow(Remove(t, id).rows, owner, q, n) == ChildrenBelow(t.rows, owner, q, n)
    decreases n
  {
    if n > 0 {
      RemoveOtherBelow(t, id, owner, q, n - 1);
    }
  }

  /** Replacing a row without changing its foreign key changes only that
      row's entry in its parent's read. */
  lemma {:induction false} ChildrenReplaceOther<R>(t: Table<R>, id: int, r: R, owner: R -> int, q: int)
    requires id in t.rows && owner(t.rows[id]) == owner(r) && owner(r) != q
    ensures Children(Replace(t, id, r), owner, q) == Children(t, owner, q)
  {
    ReplaceOtherBelow(t, id, r, owner, q, t.next);
  }

  lemma {:induction false} ReplaceOtherBelow<R>(t: Table<R>, id: int, r: R, owner: R -> int, q: int, n: int)
    requires id in t.rows && owner(t.rows[id]) == owner(r) && owner(r) != q
    ensures ChildrenBelow(Replace(t, id, r).rows, owner, q, n) == ChildrenBelow(t.rows, owner, q, n)
    decreases n
  {
    if n > 0 {
      ReplaceOtherBelow(t, id, r, owner, q, n - 1);
    }
  }
}
