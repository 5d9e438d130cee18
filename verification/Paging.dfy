/** Keyset paging over an unchanged table: rows in id order, "id > cursor", at most `take` rows. */
module Paging {
  import opened Wrappers
  import opened Text

  /** Rows in id order; ids are not empty, so a cursor is never mistaken for "no cursor". */
  ghost predicate Keyed<T(!new)>(rows: seq<T>, id: T -> string) {
    && (forall i, j :: 0 <= i < j < |rows| ==> Less(id(rows[i]), id(rows[j])))
    && (forall i :: 0 <= i < |rows| ==> id(rows[i]) != "")
  }

  lemma KeyedUnique<T(!new)>(rows: seq<T>, id: T -> string, s: T, t: T)
    requires Keyed(rows, id) && s in rows && t in rows && id(s) == id(t)
    ensures s == t
  {
    LessTotal(id(s), id(t));
  }

  /** The rows a query's condition leaves. */
  function Where<T(!new)>(rows: seq<T>, cond: T -> bool): (r: seq<T>)
    ensures forall t :: t in r <==> t in rows && cond(t)
  {
    if rows == [] then [] else (if cond(rows[0]) then [rows[0]] else []) + Where(rows[1..], cond)
  }

  lemma {:induction false} WhereKeyed<T(!new)>(rows: seq<T>, id: T -> string, cond: T -> bool)
    requires Keyed(rows, id)
    ensures Keyed(Where(rows, cond), id)
  {
    if rows != [] {
      WhereKeyed(rows[1..], id, cond);
      var rest := Where(rows[1..], cond);
      forall i | 0 <= i < |rest|
        ensures Less(id(rows[0]), id(rest[i])) && id(rest[i]) != ""
      {
        assert rest[i] in rows[1..];
      }
    }
  }

  /** The query's condition on ids: greater than the cursor, an absent or empty cursor excluding nothing. */
  function After<T(!new)>(rows: seq<T>, id: T -> string, cursor: Option<string>): seq<T> {
    Where(rows, t => cursor.None? || cursor.value == "" || Less(cursor.value, id(t)))
  }

  function Page<T(!new)>(rows: seq<T>, id: T -> string, cursor: Option<string>, take: nat): seq<T> {
    var rest := After(rows, id, cursor);
    if |rest| <= take then rest else rest[..take]
  }

  /** The cursor left behind by a loop that has consumed `k` rows. */
  ghost predicate CursorAt<T(!new)>(rows: seq<T>, id: T -> string, cursor: Option<string>, k: nat) {
    k <= |rows| && if k == 0 then cursor.None? else cursor == Some(id(rows[k - 1]))
  }

  /** A condition that the first k rows fail and the rest meet leaves the rest. */
  lemma {:induction false} WhereSuffix<T(!new)>(rows: seq<T>, cond: T -> bool, k: nat)
    requires k <= |rows| && forall i :: 0 <= i < |rows| ==> (cond(rows[i]) <==> k <= i)
    ensures Where(rows, cond) == rows[k..]
  {
    if rows != [] {
      assert forall i :: 0 <= i < |rows[1..]| ==> rows[1..][i] == rows[i + 1];
      WhereSuffix(rows[1..], cond, if k > 0 then k - 1 else 0);
      assert cond(rows[0]) <==> k <= 0;
    }
  }

  /** Rows with an id greater than the cursor are the rows after the one it names. */
  lemma AfterCursor<T(!new)>(rows: seq<T>, id: T -> string, cursor: Option<string>, k: nat)
    requires Keyed(rows, id) && CursorAt(rows, id, cursor, k)
    ensures After(rows, id, cursor) == rows[k..]
  {
    forall i | 0 <= i < |rows|
      ensures (cursor.None? || cursor.value == "" || Less(cursor.value, id(rows[i]))) <==> k <= i
    {
      if k > 0 { LessTotal(id(rows[k - 1]), id(rows[i])); }
    }
    WhereSuffix(rows, t => cursor.None? || cursor.value == "" || Less(cursor.value, id(t)), k);
  }

  /** A page read at the cursor is the next run of rows; a short page is the last. */
  lemma PageAt<T(!new)>(rows: seq<T>, id: T -> string, cursor: Option<string>, k: nat, take: nat)
    requires Keyed(rows, id) && CursorAt(rows, id, cursor, k) && take > 0
    ensures
      var page := Page(rows, id, cursor, take);
      && k + |page| <= |rows| && page == rows[k..k + |page|]
      && (|page| < take <==> |rows| - k < take)
      && (|page| < take ==> k + |page| == |rows|)
      && (page != [] ==> CursorAt(rows, id, Some(id(page[|page| - 1])), k + |page|))
  {
    AfterCursor(rows, id, cursor, k);
  }
}
