/** The `qr_codes` table and its data-access object. A row is its `id`, the table's
    primary key, so the table is a sequence of ids in which no id appears twice. The
    order of the sequence is not promised to callers (SQL gives none without
    `ORDER BY`); the contracts speak of membership, multiplicity and the key. */
module Dao {
  import opened Codes

  /** The primary key: no id is stored in two rows. */
  predicate NoDuplicates(rows: seq<string>) {
    forall i, j :: 0 <= i < j < |rows| ==> rows[i] != rows[j]
  }

  /** The key holds of a row followed by more rows when that row's id is not among
      them and the key holds of them. */
  lemma NoDuplicatesCons(x: string, tail: seq<string>)
    ensures NoDuplicates([x] + tail) <==> x !in tail && NoDuplicates(tail)
  {
    var rows := [x] + tail;
    if x !in tail && NoDuplicates(tail) {
      forall i, j | 0 <= i < j < |rows| ensures rows[i] != rows[j] {
        if i > 0 {
          assert rows[i] == tail[i - 1] && rows[j] == tail[j - 1];
        } else {
          assert rows[j] == tail[j - 1];
        }
      }
    }
    if NoDuplicates(rows) {
      assert rows[1..] == tail;
      assert x !in tail by {
        forall k | 0 <= k < |tail| ensures tail[k] != x {
          assert rows[0] == x && rows[k + 1] == tail[k];
        }
      }
      forall i, j | 0 <= i < j < |tail| ensures tail[i] != tail[j] {
        assert tail[i] == rows[i + 1] && tail[j] == rows[j + 1];
      }
    }
  }

  /** Appending an id keeps the key exactly when the id is not stored yet. */
  lemma NoDuplicatesSnoc(rows: seq<string>, x: string)
    ensures NoDuplicates(rows + [x]) <==> NoDuplicates(rows) && x !in rows
  {
    var longer := rows + [x];
    if NoDuplicates(longer) {
      assert longer[..|rows|] == rows;
      assert x !in rows by {
        forall k | 0 <= k < |rows| ensures rows[k] != x {
          assert longer[k] == rows[k] && longer[|rows|] == x;
        }
      }
    }
  }

  /** The ids stored in some row. */
  ghost function IdSet(rows: seq<string>): set<string> {
    set x | x in rows
  }

  lemma IdSetSnoc(rows: seq<string>, x: string)
    ensures IdSet(rows + [x]) == IdSet(rows) + {x}
  {
  }

  /** `SELECT COUNT(*) FROM qr_codes WHERE id = :id`. */
  function Count(rows: seq<string>, id: string): (n: nat)
    ensures n == multiset(rows)[id]
  {
    if rows == [] then 0
    else
      assert rows == [rows[0]] + rows[1..];
      (if rows[0] == id then 1 else 0) + Count(rows[1..], id)
  }

  /** Under the primary key an id is counted once if stored and not at all otherwise. */
  lemma {:induction false} CountIsZeroOrOne(rows: seq<string>, id: string)
    requires NoDuplicates(rows)
    ensures Count(rows, id) == if id in rows then 1 else 0
  {
    if rows != [] {
      CountIsZeroOrOne(rows[1..], id);
    }
  }

  /** `DELETE FROM qr_codes WHERE id = :id`: every row but the one with that id. */
  function Remove(rows: seq<string>, id: string): (r: seq<string>)
    ensures forall x :: x in r <==> x in rows && x != id
    ensures |r| == |rows| - multiset(rows)[id]
    ensures id !in rows ==> r == rows
    ensures NoDuplicates(rows) ==> NoDuplicates(r)
  {
    if rows == [] then []
    else
      assert rows == [rows[0]] + rows[1..];
      var tail := Remove(rows[1..], id);
      NoDuplicatesCons(rows[0], rows[1..]);
      NoDuplicatesCons(rows[0], tail);
      (if rows[0] == id then [] else [rows[0]]) + tail
  }

  /** `INSERT OR REPLACE`: the row with a conflicting key is deleted, then the new row
      is added. */
  function Upsert(rows: seq<string>, id: string): (r: seq<string>)
    ensures forall x :: x in r <==> x in rows || x == id
    ensures NoDuplicates(rows) ==> NoDuplicates(r)
    ensures |r| == |rows| - multiset(rows)[id] + 1
  {
    Remove(rows, id) + [id]
  }

  /** The rows whose id does (`vip`) or does not (`!vip`) match `LIKE 'V%IP'`. */
  function Where(rows: seq<string>, vip: bool): (r: seq<string>)
    ensures forall x :: x in r <==> x in rows && Like(x, VipPattern) == vip
    ensures |r| <= |rows|
    ensures NoDuplicates(rows) ==> NoDuplicates(r)
  {
    if rows == [] then []
    else
      assert rows == [rows[0]] + rows[1..];
      var tail := Where(rows[1..], vip);
      NoDuplicatesCons(rows[0], rows[1..]);
      NoDuplicatesCons(rows[0], tail);
      (if Like(rows[0], VipPattern) == vip then [rows[0]] else []) + tail
  }

  /** The VIP and the Normal filters split the table: every row lands in exactly one
      of them, once. */
  lemma {:induction false} FiltersPartition(rows: seq<string>)
    ensures multiset(Where(rows, true)) + multiset(Where(rows, false)) == multiset(rows)
    ensures forall x :: x in Where(rows, true) ==> x !in Where(rows, false)
  {
    if rows != [] {
      var x, tail := rows[0], rows[1..];
      assert rows == [x] + tail;
      FiltersPartition(tail);
      WhereCons(x, tail, true);
      WhereCons(x, tail, false);
      if Like(x, VipPattern) {
        assert Where(rows, true) == [x] + Where(tail, true);
        assert Where(rows, false) == Where(tail, false);
      } else {
        assert Where(rows, true) == Where(tail, true);
        assert Where(rows, false) == [x] + Where(tail, false);
      }
    }
  }

  lemma WhereCons(x: string, tail: seq<string>, vip: bool)
    ensures Where([x] + tail, vip) == (if Like(x, VipPattern) == vip then [x] else []) + Where(tail, vip)
  {
    var rows := [x] + tail;
    assert rows[0] == x && rows[1..] == tail;
  }

  /** Applying a filter a second time removes nothing more. */
  lemma {:induction false} WhereIdempotent(rows: seq<string>, vip: bool)
    ensures Where(Where(rows, vip), vip) == Where(rows, vip)
  {
    if rows != [] {
      var rest := Where(rows[1..], vip);
      WhereIdempotent(rows[1..], vip);
      assert rows == [rows[0]] + rows[1..];
      WhereCons(rows[0], rows[1..], vip);
      if Like(rows[0], VipPattern) == vip {
        assert Where(rows, vip) == [rows[0]] + rest;
        WhereCons(rows[0], rest, vip);
      } else {
        assert Where(rows, vip) == rest;
      }
    }
  }

  /** Keeping only one category and then only the other leaves nothing. */
  lemma {:induction false} OppositeFiltersEmpty(rows: seq<string>, vip: bool)
    ensures Where(Where(rows, vip), !vip) == []
  {
    if rows != [] {
      var rest := Where(rows[1..], vip);
      OppositeFiltersEmpty(rows[1..], vip);
      assert rows == [rows[0]] + rows[1..];
      WhereCons(rows[0], rows[1..], vip);
      if Like(rows[0], VipPattern) == vip {
        assert Where(rows, vip) == [rows[0]] + rest;
        WhereCons(rows[0], rest, !vip);
        assert Where([rows[0]] + rest, !vip) == Where(rest, !vip);
      } else {
        assert Where(rows, vip) == rest;
      }
    }
  }

  /** The store's `LIKE 'V%IP'` and the scanner's test agree on every id. */
  lemma VipFilterIsClassify()
    ensures forall x :: Like(x, VipPattern) <==> Classify(x) == Vip
  {
    forall x ensures Like(x, VipPattern) <==> Classify(x) == Vip {
      VipPatternAgrees(x);
    }
  }

  /** The DAO over the `qr_codes` table. */
  class QrCodeDao {
    var rows: seq<string>

    ghost predicate Valid()
      reads this
    {
      NoDuplicates(rows)
    }

    /** The stored ids. */
    ghost function Ids(): set<string>
      reads this
    {
      IdSet(rows)
    }

    constructor ()
      ensures Valid() && rows == []
    {
      rows := [];
    }

    /** `insert` with `OnConflictStrategy.REPLACE`. */
    method Insert(id: string)
      requires Valid()
      modifies this
      ensures Valid() && rows == Upsert(old(rows), id)
      ensures Ids() == old(Ids()) + {id}
      ensures |rows| == if id in old(Ids()) then old(|rows|) else old(|rows|) + 1
    {
      CountIsZeroOrOne(rows, id);
      rows := Upsert(rows, id);
    }

    /** `getAllQRCodes`: every stored id, none twice. */
    function GetAllQRCodes(): (r: seq<string>)
      reads this
      requires Valid()
      ensures NoDuplicates(r)
      ensures forall x :: x in r <==> x in Ids()
    {
      rows
    }

    /** `clearAll`. */
    method ClearAll()
      requires Valid()
      modifies this
      ensures Valid() && rows == [] && Ids() == {}
    {
      rows := [];
    }

    /** `exists`: a count over the primary key, so 1 for a stored id and 0 otherwise. */
    function Exists(id: string): (n: int)
      reads this
      requires Valid()
      ensures n == if id in Ids() then 1 else 0
    {
      CountIsZeroOrOne(rows, id);
      Count(rows, id)
    }

    /** `deleteById`: removes that id, if stored, and nothing else. */
    method DeleteById(id: string)
      requires Valid()
      modifies this
      ensures Valid() && rows == Remove(old(rows), id)
      ensures Ids() == old(Ids()) - {id}
      ensures id !in old(Ids()) ==> rows == old(rows)
    {
      rows := Remove(rows, id);
    }

    /** `getNormalQRCodes` (`NOT LIKE 'V%IP'`): the stored ids the scanner calls Normal. */
    function GetNormalQRCodes(): (r: seq<string>)
      reads this
      requires Valid()
      ensures NoDuplicates(r)
      ensures forall x :: x in r <==> x in Ids() && Classify(x) == Normal
    {
      VipFilterIsClassify();
      Where(rows, false)
    }

    /** `getVIPQRCodes` (`LIKE 'V%IP'`): the stored ids the scanner calls VIP. */
    function GetVIPQRCodes(): (r: seq<string>)
      reads this
      requires Valid()
      ensures NoDuplicates(r)
      ensures forall x :: x in r <==> x in Ids() && Classify(x) == Vip
    {
      VipFilterIsClassify();
      Where(rows, true)
    }

    /** `clearVIPQRCodes`: deletes the VIP ids and keeps every Normal one. */
    method ClearVIPQRCodes()
      requires Valid()
      modifies this
      ensures Valid() && rows == Where(old(rows), false)
      ensures forall x :: x in Ids() <==> x in old(Ids()) && Classify(x) == Normal
    {
      VipFilterIsClassify();
      rows := Where(rows, false);
    }

    /** `clearNormalQRCodes`: deletes the Normal ids and keeps every VIP one. */
    method ClearNormalQRCodes()
      requires Valid()
      modifies this
      ensures Valid() && rows == Where(old(rows), true)
      ensures forall x :: x in Ids() <==> x in old(Ids()) && Classify(x) == Vip
    {
      VipFilterIsClassify();
      rows := Where(rows, true);
    }
  }
}
